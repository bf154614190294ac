# Theatrical billing statement

A Dafny model of the billing calculator of the theatrical-players refactoring kata
(`src/statement.ts`). For a customer it adds up the season's performances:

- the price of each performance, in integer cents, from the play's genre and the audience size;
- the volume credits each performance earns;
- the amount owed and the credits earned;
- the text of the statement.

A play of an unknown genre aborts the whole statement.

Modules:

- `Wrappers`: the `Result` type that stands for a computation that can throw.
- `Sums`: sums of a measure over a sequence. Proves that sums add over concatenation
  and do not depend on order.
- `Decimal`: how a template literal renders a whole number (`${perf.audience}`,
  `${volumeCredits}`). Proves a round trip back to the number.
- `Lines`: text whose lines each end in `"\n"`. Proves that splitting such text gives the
  lines back.
- `Statement`: the core. It holds the entities (`Play`, `Performance`,
  `PerformanceSummary`, the `Plays` catalogue), the two pricing functions
  `CalculateAmount` and `CalculateCreditsFor`, and the method `Statement`. `Statement` keeps
  the source's loop: it updates `totalAmount`, `volumeCredits` and `result` one performance
  at a time. Its contract ties the result to reference functions: `TotalAmount`,
  `TotalCredits` (sums over the performances) and `ReportLines` (the lines of the
  statement). The lemmas after it state properties of those functions.

The currency formatter `formatAsUSD` is a parameter of `Statement` of type `int -> string`.
It is a total function of the cents, so the same amount always formats the same way. Nothing
else about it is assumed. The only exception is the lemmas about line structure: they require
that it never yields a newline.

A performance whose `playID` is not in the catalogue gives the error `UnknownPlay`; the
lookup and the call to `CalculateAmount` are `PriceOf`.
In the source, `plays[perf.playID]` is then `undefined`, and `calculateAmount` throws when it
reads `play.type`. That happens before anything is accumulated for that performance. An
unknown genre gives `UnknownType(playType)`, which matches the source's `throw` in the
`default` arm. The play's `type` field is called `playType` here because `type` is a Dafny
keyword.

## Model

| member | source | states |
|---|---|---|
| `Statement.CalculateAmount` | src/statement.ts:57-77 | succeeds exactly for "tragedy" and "comedy", and otherwise fails with `UnknownType` carrying the genre; closed forms: a tragedy costs 40000 up to 30 seats and 10000 + 1000·audience above, a comedy 30000 + 300·audience up to 20 seats and 30000 + 800·audience above; tragedy ≥ 40000, comedy ≥ 30000 |
| `Statement.CalculateCreditsFor` | src/statement.ts:48-55 | defined for every genre (no error path); up to 30 seats, only a comedy earns credits (audience / 5); above 30 seats, audience − 30, plus audience / 5 for a comedy |
| `Statement.PriceOf` | src/statement.ts:25-26 | a play ID missing from the catalogue fails with `UnknownPlay` carrying the ID; otherwise the price is `CalculateAmount` of the catalogued play; it succeeds exactly when the play is catalogued and its genre is tragedy or comedy |
| `Statement.AmountMonotone` | src/statement.ts:59-72 | a larger audience never lowers the price of a tragedy or a comedy |
| `Statement.CreditsMonotone` | src/statement.ts:48-55 | a larger audience never lowers the credits; a comedy earns at least as many credits as any other genre for the same audience |
| `Statement.BillableIff` | src/statement.ts:24-26 | a performance list can be priced exactly when every play ID is in the catalogue and every play's genre is tragedy or comedy |
| `Statement.Statement` | src/statement.ts:16-38 | succeeds exactly when every performance can be priced; on failure returns no text, only the error of a performance such that all earlier ones can be priced (the first failing one); on success returns the header, the performance lines, the amount owed and the credits of `ReportLines`, each followed by a newline |
| `Statement.FailsAt` | src/statement.ts:24-26 | one performance that cannot be priced makes the whole list unbillable, and when the earlier performances are billable it is the reported one |
| `Statement.FirstFailureUnique` | src/statement.ts:24-26 | the performance that `Statement` reports as failing is unique, so its contract fixes the error |
| `Statement.AppendOne` | src/statement.ts:24-34 | one step of the loop: the running amount grows by this performance's price, the credits by its credits, and the text by its line and a newline |
| `Statement.Closing` | src/statement.ts:35-37 | after the loop, the statement text is the accumulated text followed by the amount owed line and the credits line, each ending in a newline |
| `Statement.PerformanceLinesInOrder` | src/statement.ts:30-32 | exactly one line per performance, in input order. The i-th line shows the i-th performance's play name, the formatted price passed to the total and its audience |
| `Statement.ReportLayout` | src/statement.ts:22-37 | the statement has `|performances| + 3` lines: "Statement for {customer}", the performance lines in order, "Amount owed is {fmt(total)}", "You earned {credits} credits" |
| `Statement.TotalAmountAppend` | src/statement.ts:33 | the amount owed for two runs of performances is the sum of the two amounts |
| `Statement.TotalCreditsAppend` | src/statement.ts:28 | the credits for two runs of performances add up the same way |
| `Statement.TotalAmountPermutation` | src/statement.ts:24-34 | reordering the performances does not change the amount owed |
| `Statement.TotalCreditsPermutation` | src/statement.ts:21-36 | reordering the performances does not change the credits earned |
| `Statement.TotalAmountLowerBound` | src/statement.ts:60-72 | the amount owed is at least 30000 cents per performance |
| `Statement.ReportLinesHaveNoNewline` | src/statement.ts:22-37 | no line of the statement contains a newline when the customer, the play names and the formatted amounts contain none |
| `Statement.StatementSplitsIntoLines` | src/statement.ts:22-37 | under the same conditions the statement text splits back into exactly its lines, `|performances| + 3` of them |
| `Statement.BigCoExample` | src/statement.ts:48-77 | for Hamlet (55 seats), As You Like It (35 seats) and Othello (40 seats) the line prices are 65000, 58000 and 50000 cents and the credits 25, 12 and 10; the amount owed is 173000 cents and 47 credits are earned |
| `Statement.HeaderLineFields` | src/statement.ts:22 | the header is "Statement for " followed by the customer's name, and holds a newline only if the name does |
| `Statement.PerformanceLineFields` | src/statement.ts:30-32 | a performance line starts with a space and the play name and ends in " seats)"; it holds a newline only if the name or the formatted price does |
| `Statement.AmountOwedLineFields` | src/statement.ts:35 | the amount owed line is "Amount owed is " followed by the formatted total, and holds a newline only if that does |
| `Statement.CreditsLineFields` | src/statement.ts:36 | the credits line is "You earned ", the credits in decimal, then " credits", and never holds a newline |
| `Decimal.NatToStringHasNoNewline` | src/statement.ts:30-31 | a rendered count never holds a line break |
| `Decimal.NatToString` | src/statement.ts:30-31 | an audience or credit count renders as at least one digit, digits only, without a leading zero |
| `Decimal.NatToStringRoundTrip` | src/statement.ts:36 | reading the rendered count back gives the count, so different counts render differently |
| `Lines.UnlinesSnoc` | src/statement.ts:30-32 | appending a line and its newline to the text extends the list of lines by that line |
| `Lines.SplitUnlines` | src/statement.ts:35-37 | newline-terminated text made of newline-free lines splits back into exactly those lines |

## Left out

- `formatAsUSD` (src/statement.ts:40-46) is a parameter, not a definition. The model does not
  cover its locale rules or its floating-point division by 100.
- Arithmetic is on unbounded naturals. JavaScript numbers are doubles, which are exact only up
  to 2^53. Larger amounts, and non-integer or negative audiences, are not modelled.
- `Decimal.NatToString` always renders plain decimal digits. JavaScript switches to exponent
  notation from 10^21 on.
- A play missing from the catalogue is the explicit error `UnknownPlay`. The source's
  `undefined` semantics and its `TypeError` message are not reproduced. `UnknownType` keeps
  the genre but not the source's message text.
- The error path has no string output at all: `Result` has no partial text. This is how the
  source's exception leaves `statement` without returning anything.
