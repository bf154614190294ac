/** The billing statement of a theatre company: what a customer owes for the performances
    of a season, the volume credits earned, and the text of the statement. */
module Statement {

  import opened Wrappers
  import Sums
  import Decimal
  import Lines

  /** A play of the catalogue. `playType` is the genre: "tragedy", "comedy" or any other text. */
  datatype Play = Play(name: string, playType: string)

  /** One performance given for the customer, with the size of its audience. */
  datatype Performance = Performance(playID: string, audience: nat)

  datatype PerformanceSummary = PerformanceSummary(customer: string, performances: seq<Performance>)

  /** The catalogue of plays, by play identifier. */
  type Plays = map<string, Play>

  /** Why no statement can be produced. */
  datatype BillingError =
    | UnknownType(playType: string)  // a genre that has no price
    | UnknownPlay(playID: string)    // a performance of a play missing from the catalogue

  predicate IsPricedGenre(playType: string) {
    playType == "tragedy" || playType == "comedy"
  }

  /** The price in cents of one performance of `play`. A tragedy costs 40000 up to 30 seats
      and 1000 more per seat beyond; a comedy costs 30000 plus 300 per seat, or 30000 plus 800
      per seat beyond 20 seats; every other genre is an error. */
  function CalculateAmount(play: Play, perf: Performance): (r: Result<nat, BillingError>)
    ensures r.Success? <==> IsPricedGenre(play.playType)
    ensures r.Failure? ==> r.error == UnknownType(play.playType)
    ensures play.playType == "tragedy" ==>
      r.value == if perf.audience <= 30 then 40000 else 10000 + 1000 * perf.audience
    ensures play.playType == "comedy" ==>
      r.value == if perf.audience <= 20 then 30000 + 300 * perf.audience else 30000 + 800 * perf.audience
    ensures play.playType == "tragedy" ==> r.value >= 40000
    ensures play.playType == "comedy" ==> r.value >= 30000
  {
    var audience := perf.audience;
    match play.playType
    case "tragedy" =>
      var base := 40000;
      Success(if audience > 30 then base + 1000 * (audience - 30) else base)
    case "comedy" =>
      var base := 30000;
      var bonus := if audience > 20 then 10000 + 500 * (audience - 20) else 0;
      Success(base + bonus + 300 * audience)
    case _ => Failure(UnknownType(play.playType))
  }

  /** The volume credits earned by one performance of `play`: one per seat beyond 30, and for a
      comedy one more per five seats. Every genre earns credits, priced or not. */
  function CalculateCreditsFor(play: Play, perf: Performance): (r: nat)
    ensures perf.audience <= 30 ==> r == if play.playType == "comedy" then perf.audience / 5 else 0
    ensures perf.audience > 30 ==>
      r == perf.audience - 30 + if play.playType == "comedy" then perf.audience / 5 else 0
  {
    var baseCredits := Max(perf.audience - 30, 0);
    var extraCreditsForComedyAttendees := perf.audience / 5;
    if play.playType == "comedy" then baseCredits + extraCreditsForComedyAttendees else baseCredits
  }

  function Max(a: int, b: int): int {
    if a < b then b else a
  }

  /** The price of one performance looked up in the catalogue; a missing play is an error. */
  function PriceOf(perf: Performance, plays: Plays): (r: Result<nat, BillingError>)
    ensures perf.playID !in plays ==> r == Failure(UnknownPlay(perf.playID))
    ensures perf.playID in plays ==> r == CalculateAmount(plays[perf.playID], perf)
    ensures r.Success? <==> perf.playID in plays && IsPricedGenre(plays[perf.playID].playType)
  {
    if perf.playID !in plays then Failure(UnknownPlay(perf.playID))
    else CalculateAmount(plays[perf.playID], perf)
  }

  /** Every performance of `perfs` can be priced. */
  predicate Billable(perfs: seq<Performance>, plays: Plays) {
    forall i :: 0 <= i < |perfs| ==> PriceOf(perfs[i], plays).Success?
  }

  /** Every performance of `perfs` is of a play in the catalogue. */
  predicate Catalogued(perfs: seq<Performance>, plays: Plays) {
    forall i :: 0 <= i < |perfs| ==> perfs[i].playID in plays
  }

  /** The amount owed for `perfs`: the sum of their prices. */
  function TotalAmount(perfs: seq<Performance>, plays: Plays): nat
    requires Billable(perfs, plays)
  {
    Sums.SumBy(perfs, (p: Performance) requires PriceOf(p, plays).Success? => PriceOf(p, plays).value)
  }

  /** The volume credits earned by `perfs`: the sum of their credits. */
  function TotalCredits(perfs: seq<Performance>, plays: Plays): nat
    requires Catalogued(perfs, plays)
  {
    Sums.SumBy(perfs, (p: Performance) requires p.playID in plays => CalculateCreditsFor(plays[p.playID], p))
  }

  function HeaderLine(customer: string): string {
    "Statement for " + customer
  }

  function PerformanceLine(play: Play, perf: Performance, amount: nat, formatAsUSD: int -> string): string {
    " " + play.name + ": " + formatAsUSD(amount) + " (" + Decimal.NatToString(perf.audience) + " seats)"
  }

  function AmountOwedLine(total: nat, formatAsUSD: int -> string): string {
    "Amount owed is " + formatAsUSD(total)
  }

  function CreditsLine(credits: nat): string {
    "You earned " + Decimal.NatToString(credits) + " credits"
  }

  /** The header line is a fixed prefix followed by the customer's name. */
  lemma HeaderLineFields(customer: string)
    ensures |HeaderLine(customer)| == 14 + |customer|
    ensures HeaderLine(customer)[..14] == "Statement for " && HeaderLine(customer)[14..] == customer
    ensures Lines.Newline in HeaderLine(customer) <==> Lines.Newline in customer
  {
  }

  /** The line of one performance starts with a space and the play name and ends in
      " seats)"; it holds a newline only if the name or the formatted price does. */
  lemma PerformanceLineFields(play: Play, perf: Performance, amount: nat, formatAsUSD: int -> string)
    ensures |PerformanceLine(play, perf, amount, formatAsUSD)| >= |play.name| + 13
    ensures PerformanceLine(play, perf, amount, formatAsUSD)[0] == ' '
    ensures PerformanceLine(play, perf, amount, formatAsUSD)[1..|play.name| + 1] == play.name
    ensures PerformanceLine(play, perf, amount, formatAsUSD)[|PerformanceLine(play, perf, amount, formatAsUSD)| - 7..] == " seats)"
    ensures Lines.Newline in PerformanceLine(play, perf, amount, formatAsUSD)
      <==> Lines.Newline in play.name || Lines.Newline in formatAsUSD(amount)
  {
  }

  /** The amount owed line is a fixed prefix followed by the formatted total. */
  lemma AmountOwedLineFields(total: nat, formatAsUSD: int -> string)
    ensures |AmountOwedLine(total, formatAsUSD)| == 15 + |formatAsUSD(total)|
    ensures AmountOwedLine(total, formatAsUSD)[..15] == "Amount owed is "
    ensures AmountOwedLine(total, formatAsUSD)[15..] == formatAsUSD(total)
    ensures Lines.Newline in AmountOwedLine(total, formatAsUSD) <==> Lines.Newline in formatAsUSD(total)
  {
  }

  /** The credits line holds the credits in decimal between two fixed texts, and never a newline. */
  lemma CreditsLineFields(credits: nat)
    ensures |CreditsLine(credits)| >= 20
    ensures CreditsLine(credits)[..11] == "You earned "
    ensures CreditsLine(credits)[|CreditsLine(credits)| - 8..] == " credits"
    ensures CreditsLine(credits)[11..|CreditsLine(credits)| - 8] == Decimal.NatToString(credits)
    ensures Lines.Newline !in CreditsLine(credits)
  {
  }

  /** The line printed for the performance `perf` of a billable sequence. */
  function LineFor(perf: Performance, plays: Plays, formatAsUSD: int -> string): string
    requires PriceOf(perf, plays).Success?
  {
    PerformanceLine(plays[perf.playID], perf, PriceOf(perf, plays).value, formatAsUSD)
  }

  /** The performance lines of the statement, in the order the loop prints them. */
  function PerformanceLines(perfs: seq<Performance>, plays: Plays, formatAsUSD: int -> string): seq<string>
    requires Billable(perfs, plays)
  {
    if perfs == [] then []
    else
      var init := perfs[..|perfs| - 1];
      assert forall i :: 0 <= i < |init| ==> init[i] == perfs[i];
      PerformanceLines(init, plays, formatAsUSD) + [LineFor(perfs[|perfs| - 1], plays, formatAsUSD)]
  }

  /** There is exactly one performance line per performance, in the order of the performances. */
  lemma {:induction false} PerformanceLinesInOrder(perfs: seq<Performance>, plays: Plays, formatAsUSD: int -> string)
    requires Billable(perfs, plays)
    ensures |PerformanceLines(perfs, plays, formatAsUSD)| == |perfs|
    ensures forall i :: 0 <= i < |perfs| ==>
      PerformanceLines(perfs, plays, formatAsUSD)[i] == LineFor(perfs[i], plays, formatAsUSD)
  {
    if perfs != [] {
      var init := perfs[..|perfs| - 1];
      assert forall i :: 0 <= i < |init| ==> init[i] == perfs[i];
      PerformanceLinesInOrder(init, plays, formatAsUSD);
    }
  }

  /** The lines of the statement of a billable summary. */
  function ReportLines(summary: PerformanceSummary, plays: Plays, formatAsUSD: int -> string): seq<string>
    requires Billable(summary.performances, plays)
  {
    var perfs := summary.performances;
    BillableIsCatalogued(perfs, plays);
    [HeaderLine(summary.customer)]
      + PerformanceLines(perfs, plays, formatAsUSD)
      + [AmountOwedLine(TotalAmount(perfs, plays), formatAsUSD), CreditsLine(TotalCredits(perfs, plays))]
  }

  /** The statement of a billable summary has a header naming the customer, then one line per
      performance in input order, then the amount owed and the credits earned. */
  lemma ReportLayout(summary: PerformanceSummary, plays: Plays, formatAsUSD: int -> string)
    requires Billable(summary.performances, plays)
    ensures Catalogued(summary.performances, plays)
    ensures |ReportLines(summary, plays, formatAsUSD)| == |summary.performances| + 3
    ensures ReportLines(summary, plays, formatAsUSD)[0] == HeaderLine(summary.customer)
    ensures forall i :: 0 <= i < |summary.performances| ==>
      ReportLines(summary, plays, formatAsUSD)[i + 1] == LineFor(summary.performances[i], plays, formatAsUSD)
    ensures ReportLines(summary, plays, formatAsUSD)[|summary.performances| + 1]
      == AmountOwedLine(TotalAmount(summary.performances, plays), formatAsUSD)
    ensures ReportLines(summary, plays, formatAsUSD)[|summary.performances| + 2]
      == CreditsLine(TotalCredits(summary.performances, plays))
  {
    BillableIsCatalogued(summary.performances, plays);
    PerformanceLinesInOrder(summary.performances, plays, formatAsUSD);
  }

  /** The statement for `summary`, or the error of its first performance that cannot be priced.
      The amount owed and the credits are accumulated in one pass over the performances. */
  method Statement(summary: PerformanceSummary, plays: Plays, formatAsUSD: int -> string)
    returns (r: Result<string, BillingError>)
    ensures r.Success? <==> Billable(summary.performances, plays)
    ensures r.Failure? ==>
      exists i :: 0 <= i < |summary.performances| && Billable(summary.performances[..i], plays)
        && PriceOf(summary.performances[i], plays) == Failure(r.error)
    ensures r.Success? ==> r.value == Lines.Unlines(ReportLines(summary, plays, formatAsUSD))
  {
    var perfs := summary.performances;
    ghost var header := [HeaderLine(summary.customer)];
    var totalAmount: nat := 0;
    var volumeCredits: nat := 0;
    var result := HeaderLine(summary.customer) + "\n";
    assert result == Lines.Unlines(header);
    for k := 0 to |perfs|
      invariant Billable(perfs[..k], plays)
      invariant totalAmount == TotalAmount(perfs[..k], plays)
      invariant volumeCredits == TotalCredits(perfs[..k], plays)
      invariant result == Lines.Unlines(header + PerformanceLines(perfs[..k], plays, formatAsUSD))
    {
      var perf := perfs[k];
      if perf.playID !in plays {
        FailsAt(perfs, k, plays);
        return Failure(UnknownPlay(perf.playID));
      }
      var play := plays[perf.playID];
      var amount := CalculateAmount(play, perf);
      if amount.Failure? {
        FailsAt(perfs, k, plays);
        return Failure(amount.error);
      }
      var thisAmount := amount.value;
      AppendOne(perfs, k, header, plays, formatAsUSD);
      volumeCredits := volumeCredits + CalculateCreditsFor(play, perf);
      result := result + PerformanceLine(play, perf, thisAmount, formatAsUSD) + "\n";
      totalAmount := totalAmount + thisAmount;
    }
    Closing(summary, plays, formatAsUSD);
    result := result + AmountOwedLine(totalAmount, formatAsUSD) + "\n";
    result := result + CreditsLine(volumeCredits) + "\n";
    return Success(result);
  }

  /** What the statement text is once every performance has been processed. */
  lemma Closing(summary: PerformanceSummary, plays: Plays, formatAsUSD: int -> string)
    requires Billable(summary.performances, plays)
    ensures summary.performances[..|summary.performances|] == summary.performances
    ensures Lines.Unlines(ReportLines(summary, plays, formatAsUSD))
      == Lines.Unlines([HeaderLine(summary.customer)] + PerformanceLines(summary.performances, plays, formatAsUSD))
         + AmountOwedLine(TotalAmount(summary.performances, plays), formatAsUSD) + "\n"
         + CreditsLine(TotalCredits(summary.performances, plays)) + "\n"
  {
    var perfs := summary.performances;
    assert perfs[..|perfs|] == perfs;
    var owed := AmountOwedLine(TotalAmount(perfs, plays), formatAsUSD);
    var earned := CreditsLine(TotalCredits(perfs, plays));
    var body := [HeaderLine(summary.customer)] + PerformanceLines(perfs, plays, formatAsUSD);
    Lines.UnlinesSnoc(body, owed);
    Lines.UnlinesSnoc(body + [owed], earned);
    assert body + [owed] + [earned] == ReportLines(summary, plays, formatAsUSD);
  }

  /** A performance that cannot be priced makes the whole sequence unbillable, and it is
      the first such performance when those before it are billable. */
  lemma FailsAt(perfs: seq<Performance>, k: nat, plays: Plays)
    requires k < |perfs| && Billable(perfs[..k], plays) && PriceOf(perfs[k], plays).Failure?
    ensures !Billable(perfs, plays)
    ensures exists i ::
              0 <= i < |perfs| && Billable(perfs[..i], plays)
              && PriceOf(perfs[i], plays) == Failure(PriceOf(perfs[k], plays).error)
  {
  }

  /** What processing the billable performance `perfs[k]` adds to the totals and the text. */
  lemma AppendOne(perfs: seq<Performance>, k: nat, header: seq<string>, plays: Plays, formatAsUSD: int -> string)
    requires k < |perfs| && Billable(perfs[..k], plays) && PriceOf(perfs[k], plays).Success?
    ensures Billable(perfs[..k + 1], plays) && Catalogued(perfs[..k], plays) && Catalogued(perfs[..k + 1], plays)
    ensures TotalAmount(perfs[..k + 1], plays) == TotalAmount(perfs[..k], plays) + PriceOf(perfs[k], plays).value
    ensures TotalCredits(perfs[..k + 1], plays)
      == TotalCredits(perfs[..k], plays) + CalculateCreditsFor(plays[perfs[k].playID], perfs[k])
    ensures Lines.Unlines(header + PerformanceLines(perfs[..k + 1], plays, formatAsUSD))
      == Lines.Unlines(header + PerformanceLines(perfs[..k], plays, formatAsUSD)) + LineFor(perfs[k], plays, formatAsUSD) + "\n"
  {
    var done, s := perfs[..k], perfs[..k + 1];
    assert s[..|s| - 1] == done;
    assert forall i :: 0 <= i < |s| ==> s[i] == perfs[i];
    BillableIsCatalogued(s, plays);
    BillableIsCatalogued(done, plays);
    var line := LineFor(perfs[k], plays, formatAsUSD);
    assert PerformanceLines(s, plays, formatAsUSD) == PerformanceLines(done, plays, formatAsUSD) + [line];
    assert header + PerformanceLines(s, plays, formatAsUSD) == header + PerformanceLines(done, plays, formatAsUSD) + [line];
    Lines.UnlinesSnoc(header + PerformanceLines(done, plays, formatAsUSD), line);
  }

  /** A performance that can be priced is of a play in the catalogue. */
  lemma BillableIsCatalogued(perfs: seq<Performance>, plays: Plays)
    requires Billable(perfs, plays)
    ensures Catalogued(perfs, plays) && Catalogued(perfs[..|perfs|], plays)
  {
    assert perfs[..|perfs|] == perfs;
  }

  // Properties of the pricing rules

  /** A higher audience never lowers the price of a performance. */
  lemma AmountMonotone(play: Play, p: Performance, q: Performance)
    requires IsPricedGenre(play.playType) && p.audience <= q.audience
    ensures CalculateAmount(play, p).value <= CalculateAmount(play, q).value
  {
  }

  /** A higher audience never lowers the credits of a performance, and a comedy earns at
      least as many credits as a play of any other genre with the same audience. */
  lemma CreditsMonotone(play: Play, other: Play, p: Performance, q: Performance)
    requires p.audience <= q.audience && play.playType == "comedy"
    ensures CalculateCreditsFor(play, p) <= CalculateCreditsFor(play, q)
    ensures CalculateCreditsFor(other, p) <= CalculateCreditsFor(other, q)
    ensures CalculateCreditsFor(other, p) <= CalculateCreditsFor(play, p)
  {
  }

  /** A summary is billable exactly when every play it refers to is in the catalogue and is a
      tragedy or a comedy. */
  lemma BillableIff(perfs: seq<Performance>, plays: Plays)
    ensures Billable(perfs, plays) <==>
      forall i :: 0 <= i < |perfs| ==> perfs[i].playID in plays && IsPricedGenre(plays[perfs[i].playID].playType)
  {
  }

  /** The contract of `Statement` names one error: the first performance that cannot be
      priced is unique. */
  lemma FirstFailureUnique(perfs: seq<Performance>, plays: Plays, i: nat, j: nat)
    requires i < |perfs| && Billable(perfs[..i], plays) && PriceOf(perfs[i], plays).Failure?
    requires j < |perfs| && Billable(perfs[..j], plays) && PriceOf(perfs[j], plays).Failure?
    ensures i == j
  {
  }

  // Properties of the totals

  /** The amount owed for two runs of performances is the sum of the amounts for each. */
  lemma TotalAmountAppend(s: seq<Performance>, t: seq<Performance>, plays: Plays)
    requires Billable(s, plays) && Billable(t, plays)
    ensures Billable(s + t, plays)
    ensures TotalAmount(s + t, plays) == TotalAmount(s, plays) + TotalAmount(t, plays)
  {
    Sums.SumByAppend(s, t, (p: Performance) requires PriceOf(p, plays).Success? => PriceOf(p, plays).value);
  }

  /** The credits for two runs of performances are the sum of the credits for each. */
  lemma TotalCreditsAppend(s: seq<Performance>, t: seq<Performance>, plays: Plays)
    requires Catalogued(s, plays) && Catalogued(t, plays)
    ensures Catalogued(s + t, plays)
    ensures TotalCredits(s + t, plays) == TotalCredits(s, plays) + TotalCredits(t, plays)
  {
    Sums.SumByAppend(s, t, (p: Performance) requires p.playID in plays => CalculateCreditsFor(plays[p.playID], p));
  }

  /** Reordering the performances does not change the amount owed. */
  lemma TotalAmountPermutation(s: seq<Performance>, t: seq<Performance>, plays: Plays)
    requires multiset(s) == multiset(t) && Billable(s, plays)
    ensures Billable(t, plays)
    ensures TotalAmount(s, plays) == TotalAmount(t, plays)
  {
    forall i | 0 <= i < |t| ensures PriceOf(t[i], plays).Success? {
      assert t[i] in multiset(s);
    }
    Sums.SumByPermutation(s, t, (p: Performance) requires PriceOf(p, plays).Success? => PriceOf(p, plays).value);
  }

  /** Reordering the performances does not change the credits earned. */
  lemma TotalCreditsPermutation(s: seq<Performance>, t: seq<Performance>, plays: Plays)
    requires multiset(s) == multiset(t) && Catalogued(s, plays)
    ensures Catalogued(t, plays)
    ensures TotalCredits(s, plays) == TotalCredits(t, plays)
  {
    forall i | 0 <= i < |t| ensures t[i].playID in plays {
      assert t[i] in multiset(s);
    }
    Sums.SumByPermutation(s, t, (p: Performance) requires p.playID in plays => CalculateCreditsFor(plays[p.playID], p));
  }

  /** Every performance costs at least 30000 cents, so the amount owed is at least that much
      per performance. */
  lemma {:induction false} TotalAmountLowerBound(perfs: seq<Performance>, plays: Plays)
    requires Billable(perfs, plays)
    ensures TotalAmount(perfs, plays) >= 30000 * |perfs|
  {
    if perfs != [] {
      var k := |perfs| - 1;
      assert perfs[..k] + [perfs[k]] == perfs;
      assert Billable(perfs[..k], plays) by {
        assert forall i :: 0 <= i < k ==> perfs[..k][i] == perfs[i];
      }
      TotalAmountLowerBound(perfs[..k], plays);
      AppendOne(perfs, k, [], plays, (c: int) => "");
      assert perfs[..k + 1] == perfs;
    }
  }

  // Properties of the statement text

  /** No line of the statement holds a newline when the customer, the play names and the
      formatted amounts hold none. */
  lemma ReportLinesHaveNoNewline(summary: PerformanceSummary, plays: Plays, formatAsUSD: int -> string)
    requires Billable(summary.performances, plays)
    requires Lines.Newline !in summary.customer
    requires forall id :: id in plays ==> Lines.Newline !in plays[id].name
    requires forall cents :: Lines.Newline !in formatAsUSD(cents)
    ensures forall i :: 0 <= i < |ReportLines(summary, plays, formatAsUSD)| ==>
      Lines.Newline !in ReportLines(summary, plays, formatAsUSD)[i]
  {
    ReportLayout(summary, plays, formatAsUSD);
    var perfs := summary.performances;
    HeaderLineFields(summary.customer);
    AmountOwedLineFields(TotalAmount(perfs, plays), formatAsUSD);
    CreditsLineFields(TotalCredits(perfs, plays));
    var ls := ReportLines(summary, plays, formatAsUSD);
    forall i | 0 <= i < |ls| ensures Lines.Newline !in ls[i] {
      if 1 <= i <= |perfs| {
        var perf := perfs[i - 1];
        PerformanceLineFields(plays[perf.playID], perf, PriceOf(perf, plays).value, formatAsUSD);
      }
    }
  }

  /** Under the same conditions, the statement text splits back into exactly its
      `|performances| + 3` lines: the header, the performance lines in order, and the two
      trailers. */
  lemma StatementSplitsIntoLines(summary: PerformanceSummary, plays: Plays, formatAsUSD: int -> string)
    requires Billable(summary.performances, plays)
    requires Lines.Newline !in summary.customer
    requires forall id :: id in plays ==> Lines.Newline !in plays[id].name
    requires forall cents :: Lines.Newline !in formatAsUSD(cents)
    ensures Lines.SplitLines(Lines.Unlines(ReportLines(summary, plays, formatAsUSD)))
      == ReportLines(summary, plays, formatAsUSD)
    ensures |Lines.SplitLines(Lines.Unlines(ReportLines(summary, plays, formatAsUSD)))|
      == |summary.performances| + 3
  {
    ReportLinesHaveNoNewline(summary, plays, formatAsUSD);
    Lines.SplitUnlines(ReportLines(summary, plays, formatAsUSD));
    ReportLayout(summary, plays, formatAsUSD);
  }

  /** The season of the company's example customer: two tragedies and a comedy. */
  lemma BigCoExample()
    ensures var plays := map[
        "hamlet" := Play("Hamlet", "tragedy"),
        "as-like" := Play("As You Like It", "comedy"),
        "othello" := Play("Othello", "tragedy")];
      var perfs := [Performance("hamlet", 55), Performance("as-like", 35), Performance("othello", 40)];
      Billable(perfs, plays)
      && PriceOf(perfs[0], plays) == Success(65000)
      && PriceOf(perfs[1], plays) == Success(58000)
      && PriceOf(perfs[2], plays) == Success(50000)
      && CalculateCreditsFor(plays["hamlet"], perfs[0]) == 25
      && CalculateCreditsFor(plays["as-like"], perfs[1]) == 12
      && CalculateCreditsFor(plays["othello"], perfs[2]) == 10
      && TotalAmount(perfs, plays) == 65000 + 58000 + 50000
      && TotalCredits(perfs, plays) == 25 + 12 + 10
  {
    var plays := map[
        "hamlet" := Play("Hamlet", "tragedy"),
        "as-like" := Play("As You Like It", "comedy"),
        "othello" := Play("Othello", "tragedy")];
    var perfs := [Performance("hamlet", 55), Performance("as-like", 35), Performance("othello", 40)];
    assert PriceOf(perfs[0], plays) == Success(65000);
    assert PriceOf(perfs[1], plays) == Success(58000);
    assert PriceOf(perfs[2], plays) == Success(50000);
    TotalAmountAppend(perfs[..2], [perfs[2]], plays);
    TotalAmountAppend([perfs[0]], [perfs[1]], plays);
    TotalCreditsAppend(perfs[..2], [perfs[2]], plays);
    TotalCreditsAppend([perfs[0]], [perfs[1]], plays);
    assert perfs == perfs[..2] + [perfs[2]];
    assert perfs[..2] == [perfs[0]] + [perfs[1]];
  }
}
