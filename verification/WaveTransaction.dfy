/**
 * From a categorized document to a balanced Wave transaction: the payload with its normalized line
 * items (src/data_entry/waveapps_surface.py), the bridge (src/data_entry/waveapps_api_executor.py)
 * and the transaction builder (src/data_entry/waveapps_transaction.py).
 *
 * Amounts are exact reals; the rounding steps are the source's own.
 */
module WaveTransaction {
  import opened Text
  import opened Money

  /** A recorded amount: missing, not a number, or a number. */
  datatype Raw = Absent | Unreadable | Num(value: real)

  /** Texts that are not given are empty. */
  datatype RawItem = NotAnObject | Item(amount: Raw, category: string, account: string)

  datatype Line = Line(amount: Raw, category: string, account: string)

  function Given(text: string, default: string): string {
    if text != "" then text else default
  }

  // ------------------------------------------------------------------------------------------
  // Line items of the payload
  // ------------------------------------------------------------------------------------------

  /** The items with a readable amount. */
  function Readable(items: seq<RawItem>, category: string, account: string): (lines: seq<Line>)
    ensures forall l :: l in lines ==> l.amount.Num?
    ensures |lines| <= |items|
  {
    if items == [] then []
    else
      var n := |items| - 1;
      Readable(items[..n], category, account)
      + if items[n].Item? && items[n].amount.Num?
        then [Line(items[n].amount, Given(items[n].category, category), Given(items[n].account, account))] else []
  }

  predicate Numeric(lines: seq<Line>) {
    forall l :: l in lines ==> l.amount.Num?
  }

  function Sum(lines: seq<Line>): real
    requires Numeric(lines)
  {
    if lines == [] then 0.0 else Sum(lines[..|lines| - 1]) + lines[|lines| - 1].amount.value
  }

  function Tolerance(total: real): real {
    Max(0.02, Abs(total) / 100.0)
  }

  function Signed(line: Line, total: real): Line
    requires line.amount.Num?
  {
    line.(amount := Num(Round2(Abs(line.amount.value) * if total < 0.0 then -1.0 else 1.0)))
  }

  /** Every amount as a magnitude with the sign of the total. */
  function WithSignOf(lines: seq<Line>, total: real): (r: seq<Line>)
    requires Numeric(lines)
    ensures Numeric(r) && |r| == |lines|
  {
    seq(|lines|, i requires 0 <= i < |lines| => Signed(lines[i], total))
  }

  predicate TakenAsIs(lines: seq<Line>, total: real)
    requires Numeric(lines)
  {
    Abs(Round2(Sum(lines)) - total) <= Tolerance(total)
  }

  /** The sums differ in sign only. */
  predicate Flipped(lines: seq<Line>, total: real)
    requires Numeric(lines)
  {
    !TakenAsIs(lines, total) && Abs(Abs(Round2(Sum(lines))) - Abs(total)) <= Tolerance(total)
  }

  function NormalizeLineItems(items: seq<RawItem>, total: Raw, category: string, account: string): (r: seq<Line>)
    ensures r != []
  {
    var lines := Readable(items, category, account);
    if lines != [] && (!total.Num? || TakenAsIs(lines, total.value)) then lines
    else if lines != [] && Flipped(lines, total.value) then WithSignOf(lines, total.value)
    else [Line(total, category, account)]
  }

  /** The loop over the raw items. */
  method ReadItems(items: seq<RawItem>, category: string, account: string) returns (lines: seq<Line>)
    ensures lines == Readable(items, category, account)
  {
    lines := [];
    assert items[..0] == [];
    for i := 0 to |items|
      invariant lines == Readable(items[..i], category, account)
    {
      assert items[..i + 1][..i] == items[..i];
      var item := items[i];
      if item.Item? && item.amount.Num? {
        lines := lines + [Line(item.amount, Given(item.category, category), Given(item.account, account))];
      }
    }
    assert items[..|items|] == items;
  }

  method NormalizeWaveLineItems(items: seq<RawItem>, total: Raw, category: string, account: string)
    returns (r: seq<Line>)
    ensures r == NormalizeLineItems(items, total, category, account)
  {
    var lines := ReadItems(items, category, account);
    if lines != [] {
      var lineTotal := Round2(Sum(lines));
      if !total.Num? || Abs(lineTotal - total.value) <= Tolerance(total.value) {
        return lines;
      }
      if Abs(Abs(lineTotal) - Abs(total.value)) <= Tolerance(total.value) {
        return WithSignOf(lines, total.value);
      }
    }
    r := [Line(total, category, account)];
  }

  // ------------------------------------------------------------------------------------------
  // The payload and the bridge
  // ------------------------------------------------------------------------------------------

  /** `strip`, `lower`, and both separators to an underscore. */
  function NormalizeType(text: string): string {
    Replace(Replace(Lower(Strip(text)), ' ', "_"), '-', "_")
  }

  /** The type as the payload records it: a missing one is a receipt, an invoice one to pay. */
  function PayloadType(text: string): string {
    if text == "" then "receipt"
    else
      var normalized := NormalizeType(text);
      if normalized == "invoice" || normalized == "purchase_invoice" then "vendor_invoice" else normalized
  }

  const CREDIT_NOTE := "credit_note"

  datatype DocumentData = DocumentData(documentType: string, total: Raw, date: Option<string>, items: seq<RawItem>)

  datatype Payload = Payload(documentType: string, deposit: bool, amount: Raw, date: Option<string>,
                             category: string, lines: seq<Line>)

  /** A credit note is a negative amount, and no amount at all is zero. */
  function PostingAmount(amount: Raw, documentType: string): Raw {
    match amount
    case Absent => Num(0.0)
    case Unreadable => Unreadable
    case Num(v) => Num(if documentType == CREDIT_NOTE then -Abs(v) else v)
  }

  /** The types that are not routed to a bill, a customer invoice or an estimate. */
  predicate RoutedAsTransaction(documentType: string) {
    && documentType != "vendor_invoice" && documentType != "bill" && documentType != "unpaid_purchase"
    && documentType != "sales_invoice" && documentType != "estimate" && documentType != "quote"
  }

  /** Only the payload of a transaction carries more than the line items. */
  function BuildPayload(doc: DocumentData, category: string, defaultAccount: string): Payload {
    var documentType := PayloadType(doc.documentType);
    var amount := PostingAmount(doc.total, documentType);
    var lines := NormalizeLineItems(doc.items, amount, category, defaultAccount);
    if RoutedAsTransaction(documentType) then
      Payload(documentType, documentType == CREDIT_NOTE, amount, doc.date, Given(lines[0].category, category), lines)
    else Payload("", false, Absent, None, "", lines)
  }

  /** What the builder is given; in general a line can be anything. */
  datatype LineInput = NoLine | OneLine(line: Line)

  datatype Data = Data(documentType: string, deposit: bool, total: Raw, date: Option<string>, category: string,
                       lines: seq<LineInput>)

  function CategorizedData(p: Payload): Data {
    Data(p.documentType, p.deposit, p.amount, p.date, p.category,
         seq(|p.lines|, i requires 0 <= i < |p.lines| => OneLine(p.lines[i])))
  }

  // ------------------------------------------------------------------------------------------
  // The transaction builder
  // ------------------------------------------------------------------------------------------

  datatype Accounts = Accounts(
    businessId: string, anchorId: string, mapping: map<string, string>, ids: map<string, string>)

  datatype Balance = Increase | Decrease

  datatype Direction = Deposit | Withdrawal

  datatype TransactionLine = TransactionLine(accountId: string, cents: nat, balance: Balance)

  datatype Transaction = Transaction(date: string, cents: nat, direction: Direction, lines: seq<TransactionLine>)

  datatype MissingField =
    | MissingLine(index: nat) | MissingAccount(index: nat) | MissingAmount(index: nat)
    | LineItemTotal | CategoryAccount | BusinessId | AnchorAccount | TransactionDate | TotalAmount

  datatype Result = Success(transaction: Transaction) | Failure(missing: seq<MissingField>)

  function Lookup(m: map<string, string>, key: string): string {
    if key in m then m[key] else ""
  }

  /** Positive cents, or nothing. */
  function UnsignedAmount(amount: Raw): (cents: Option<nat>)
    ensures cents.Some? ==> cents.value > 0 && amount.Num? && cents.value == UnsignedHalfUp(amount.value)
    ensures cents.None? <==> !amount.Num? || UnsignedHalfUp(amount.value) == 0
  {
    if amount.Num? && UnsignedHalfUp(amount.value) > 0 then Some(UnsignedHalfUp(amount.value)) else None
  }

  function MappedCategory(accounts: Accounts, category: string): string {
    Strip(Given(Lookup(accounts.mapping, category), category))
  }

  /** The account of a line: by mapped category, by category, or by the label on the line. */
  function LineAccount(accounts: Accounts, line: Line, category: string): string {
    var own := Strip(Given(line.category, category));
    var mapped := Strip(Given(Lookup(accounts.mapping, own), Given(own, MappedCategory(accounts, category))));
    Given(Lookup(accounts.ids, mapped), Given(Lookup(accounts.ids, own), Lookup(accounts.ids, Strip(line.account))))
  }

  /** How the account of a line is found. */
  type Resolver = Line -> string

  function ResolverOf(accounts: Accounts, category: string): Resolver {
    (line: Line) => LineAccount(accounts, line, category)
  }

  function LineMissing(resolve: Resolver, input: LineInput, index: nat): seq<MissingField> {
    match input
    case NoLine => [MissingLine(index)]
    case OneLine(line) =>
      (if resolve(line) == "" then [MissingAccount(index)] else [])
      + if UnsignedAmount(line.amount).None? then [MissingAmount(index)] else []
  }

  function MissingOf(resolve: Resolver, inputs: seq<LineInput>): seq<MissingField> {
    if inputs == [] then []
    else
      var n := |inputs| - 1;
      MissingOf(resolve, inputs[..n]) + LineMissing(resolve, inputs[n], n)
  }

  predicate Complete(resolve: Resolver, input: LineInput) {
    input.OneLine? && resolve(input.line) != "" && UnsignedAmount(input.line.amount).Some?
  }

  function LineOf(resolve: Resolver, input: LineInput, balance: Balance): TransactionLine
    requires Complete(resolve, input)
  {
    TransactionLine(resolve(input.line), UnsignedAmount(input.line.amount).value, balance)
  }

  function LinesOf(resolve: Resolver, inputs: seq<LineInput>, balance: Balance): seq<TransactionLine> {
    if inputs == [] then []
    else
      var n := |inputs| - 1;
      LinesOf(resolve, inputs[..n], balance)
      + if Complete(resolve, inputs[n]) then [LineOf(resolve, inputs[n], balance)] else []
  }

  function SumCents(lines: seq<TransactionLine>): nat {
    if lines == [] then 0 else SumCents(lines[..|lines| - 1]) + lines[|lines| - 1].cents
  }

  function FallbackAccount(accounts: Accounts, category: string): string {
    Given(Lookup(accounts.ids, MappedCategory(accounts, category)), Lookup(accounts.ids, category))
  }

  /** The lines of the transaction and what they lack. */
  function ExpenseLines(accounts: Accounts, inputs: seq<LineInput>, category: string, total: Option<nat>,
                        balance: Balance)
    : (seq<TransactionLine>, seq<MissingField>)
  {
    if inputs == [] then
      var account := FallbackAccount(accounts, category);
      if account == "" then ([], [CategoryAccount])
      else ([TransactionLine(account, if total.Some? then total.value else 0, balance)], [])
    else
      var resolve := ResolverOf(accounts, category);
      var lines, missing := LinesOf(resolve, inputs, balance), MissingOf(resolve, inputs);
      (lines, if missing == [] && total.Some? && SumCents(lines) != total.value then [LineItemTotal] else missing)
  }

  lemma NextLine(resolve: Resolver, inputs: seq<LineInput>, i: nat, balance: Balance)
    requires i < |inputs|
    ensures MissingOf(resolve, inputs[..i + 1])
         == MissingOf(resolve, inputs[..i]) + LineMissing(resolve, inputs[i], i)
    ensures LinesOf(resolve, inputs[..i + 1], balance)
         == LinesOf(resolve, inputs[..i], balance)
            + if Complete(resolve, inputs[i]) then [LineOf(resolve, inputs[i], balance)] else []
  {
    assert inputs[..i + 1][..i] == inputs[..i];
  }

  /** The body of the loop over the line items. */
  method ExpenseLine(resolve: Resolver, input: LineInput, index: nat, balance: Balance)
    returns (added: seq<TransactionLine>, lacks: seq<MissingField>)
    ensures added == if Complete(resolve, input) then [LineOf(resolve, input, balance)] else []
    ensures lacks == LineMissing(resolve, input, index)
  {
    added, lacks := [], [];
    match input {
      case NoLine => lacks := [MissingLine(index)];
      case OneLine(line) =>
        var account := resolve(line);
        var amount := UnsignedAmount(line.amount);
        if account == "" {
          lacks := lacks + [MissingAccount(index)];
        }
        if amount.None? {
          lacks := lacks + [MissingAmount(index)];
        }
        if account != "" && amount.Some? {
          added := [TransactionLine(account, amount.value, balance)];
        }
    }
  }

  lemma SumCentsAppend(lines: seq<TransactionLine>, added: seq<TransactionLine>)
    requires |added| <= 1
    ensures SumCents(lines + added) == SumCents(lines) + if added == [] then 0 else added[0].cents
  {
    if added == [] {
      assert lines + added == lines;
    } else {
      assert (lines + added)[..|lines|] == lines;
    }
  }

  method ExpenseLineItems(accounts: Accounts, inputs: seq<LineInput>, category: string, total: Option<nat>,
                          balance: Balance)
    returns (lines: seq<TransactionLine>, missing: seq<MissingField>)
    ensures (lines, missing) == ExpenseLines(accounts, inputs, category, total, balance)
  {
    lines, missing := [], [];
    if inputs == [] {
      var account := FallbackAccount(accounts, category);
      if account == "" {
        return [], [CategoryAccount];
      }
      return [TransactionLine(account, if total.Some? then total.value else 0, balance)], [];
    }
    var resolve := ResolverOf(accounts, category);
    var sum := 0;
    assert inputs[..0] == [];
    for i := 0 to |inputs|
      invariant lines == LinesOf(resolve, inputs[..i], balance)
      invariant missing == MissingOf(resolve, inputs[..i])
      invariant sum == SumCents(lines)
    {
      NextLine(resolve, inputs, i, balance);
      var added, lacks := ExpenseLine(resolve, inputs[i], i, balance);
      SumCentsAppend(lines, added);
      lines := lines + added;
      missing := missing + lacks;
      if added != [] {
        sum := sum + added[0].cents;
      }
    }
    assert inputs[..|inputs|] == inputs;
    if missing == [] && total.Some? && sum != total.value {
      missing := [LineItemTotal];
    }
  }

  function HeaderMissing(accounts: Accounts, data: Data): seq<MissingField> {
    (if accounts.businessId == "" then [BusinessId] else [])
    + (if accounts.anchorId == "" then [AnchorAccount] else [])
    + (if data.date.None? then [TransactionDate] else [])
    + (if UnsignedAmount(data.total).None? then [TotalAmount] else [])
  }

  predicate IsCredit(data: Data) {
    NormalizeType(data.documentType) == CREDIT_NOTE || data.deposit
  }

  function BuildTransaction(accounts: Accounts, data: Data): Result {
    var total := UnsignedAmount(data.total);
    var (lines, lineMissing) := ExpenseLines(accounts, data.lines, Strip(data.category), total,
                                             if IsCredit(data) then Decrease else Increase);
    var missing := lineMissing + HeaderMissing(accounts, data);
    if missing != [] then Failure(missing)
    else Success(Transaction(data.date.value, total.value, if IsCredit(data) then Deposit else Withdrawal, lines))
  }

  // ------------------------------------------------------------------------------------------
  // Normalized line items add up
  // ------------------------------------------------------------------------------------------

  ghost predicate AllWholeCents(lines: seq<Line>)
    requires Numeric(lines)
  {
    forall l :: l in lines ==> WholeCents(l.amount.value)
  }

  /** The sum of the positive and the magnitude of the sum of the negative amounts. */
  function Positive(lines: seq<Line>): (r: real)
    requires Numeric(lines)
    ensures r >= 0.0
  {
    if lines == [] then 0.0
    else Positive(lines[..|lines| - 1]) + Max(0.0, lines[|lines| - 1].amount.value)
  }

  function Negative(lines: seq<Line>): (r: real)
    requires Numeric(lines)
    ensures r >= 0.0
  {
    if lines == [] then 0.0
    else Negative(lines[..|lines| - 1]) + Max(0.0, -lines[|lines| - 1].amount.value)
  }

  lemma WholeFrom(x: real, cents: int)
    requires x * 100.0 == cents as real
    ensures WholeCents(x)
  {
  }

  lemma SumOfWholeCents(a: real, b: real)
    requires WholeCents(a) && WholeCents(b)
    ensures WholeCents(a + b)
  {
    WholeFrom(a + b, (a * 100.0).Floor + (b * 100.0).Floor);
  }

  lemma NegatedWholeCents(a: real)
    requires WholeCents(a)
    ensures WholeCents(-a) && WholeCents(Abs(a))
  {
    WholeFrom(-a, -(a * 100.0).Floor);
  }

  lemma {:induction false} SumSplits(lines: seq<Line>)
    requires Numeric(lines)
    ensures Sum(lines) == Positive(lines) - Negative(lines)
    ensures AllWholeCents(lines) ==> WholeCents(Sum(lines))
  {
    if lines != [] {
      var n := |lines| - 1;
      SumSplits(lines[..n]);
      assert lines[n] in lines;
      if AllWholeCents(lines) {
        assert AllWholeCents(lines[..n]);
        SumOfWholeCents(Sum(lines[..n]), lines[n].amount.value);
      }
    } else {
      assert WholeCents(0.0);
    }
  }

  /** The sum of the magnitudes, each rounded to cents. */
  function Magnitudes(lines: seq<Line>): (r: real)
    requires Numeric(lines)
    ensures r >= 0.0
  {
    if lines == [] then 0.0
    else Magnitudes(lines[..|lines| - 1]) + Round2(Abs(lines[|lines| - 1].amount.value))
  }

  lemma HalfEvenNegated(x: real)
    ensures HalfEven(-x) == -HalfEven(x)
  {
    var floor := (x * 100.0).Floor;
    assert (-x * 100.0).Floor == if floor as real == x * 100.0 then -floor else -floor - 1;
  }

  lemma RoundedIsWhole(x: real)
    ensures WholeCents(Round2(x)) && Round2(-x) == -Round2(x)
  {
    WholeFrom(Round2(x), HalfEven(x));
    HalfEvenNegated(x);
  }

  lemma SignedMagnitude(line: Line, total: real)
    requires line.amount.Num?
    ensures var m := Round2(Abs(line.amount.value)); Signed(line, total).amount.value == if total < 0.0 then -m else m
  {
    var v := Abs(line.amount.value);
    RoundedIsWhole(v);
    assert v * (if total < 0.0 then -1.0 else 1.0) == if total < 0.0 then -v else v;
  }

  lemma {:induction false} MagnitudesAreWhole(lines: seq<Line>)
    requires Numeric(lines)
    ensures WholeCents(Magnitudes(lines))
    ensures AllWholeCents(lines) ==> Magnitudes(lines) == Positive(lines) + Negative(lines)
  {
    if lines != [] {
      var n := |lines| - 1;
      MagnitudesAreWhole(lines[..n]);
      assert lines[n] in lines;
      RoundedIsWhole(Abs(lines[n].amount.value));
      SumOfWholeCents(Magnitudes(lines[..n]), Round2(Abs(lines[n].amount.value)));
      if AllWholeCents(lines) {
        assert AllWholeCents(lines[..n]);
        NegatedWholeCents(lines[n].amount.value);
      }
    } else {
      assert WholeCents(0.0);
    }
  }

  lemma SignedWholeCents(line: Line, total: real)
    requires line.amount.Num? && WholeCents(line.amount.value)
    ensures Signed(line, total).amount.value == if total < 0.0 then -Abs(line.amount.value) else Abs(line.amount.value)
  {
    var v := line.amount.value;
    NegatedWholeCents(v);
    NegatedWholeCents(Abs(v));
    assert Abs(v) * (if total < 0.0 then -1.0 else 1.0) == if total < 0.0 then -Abs(v) else Abs(v);
  }

  lemma Snoc(lines: seq<Line>, line: Line, total: real)
    requires Numeric(lines) && line.amount.Num?
    ensures Numeric(lines + [line])
    ensures Sum(lines + [line]) == Sum(lines) + line.amount.value
    ensures Positive(lines + [line]) == Positive(lines) + Max(0.0, line.amount.value)
    ensures Negative(lines + [line]) == Negative(lines) + Max(0.0, -line.amount.value)
    ensures Magnitudes(lines + [line]) == Magnitudes(lines) + Round2(Abs(line.amount.value))
    ensures WithSignOf(lines + [line], total) == WithSignOf(lines, total) + [Signed(line, total)]
  {
    assert (lines + [line])[..|lines|] == lines;
  }

  lemma {:induction false} SumWithSign(lines: seq<Line>, total: real)
    requires Numeric(lines)
    ensures Sum(WithSignOf(lines, total)) == if total < 0.0 then -Magnitudes(lines) else Magnitudes(lines)
  {
    if lines != [] {
      var init, last := lines[..|lines| - 1], lines[|lines| - 1];
      assert lines == init + [last] && last in lines;
      SumWithSign(init, total);
      Snoc(init, last, total);
      Snoc(WithSignOf(init, total), Signed(last, total), total);
      SignedMagnitude(last, total);
    }
  }

  /** What the smaller of the two signs amounts to. */
  function Minority(lines: seq<Line>): real
    requires Numeric(lines)
  {
    if Positive(lines) < Negative(lines) then Positive(lines) else Negative(lines)
  }

  /** In cents the lines are the total, within the tolerance. */
  predicate AddsUp(lines: seq<Line>, total: real) {
    Numeric(lines) && TakenAsIs(lines, total)
  }

  /** Flipping takes all magnitudes together. */
  predicate FlipIsClose(lines: seq<Line>, total: real)
    requires Numeric(lines)
  {
    Abs(Magnitudes(lines) - Abs(total)) <= Tolerance(total)
  }

  lemma FlippedAddsUpIff(lines: seq<Line>, total: real)
    requires Numeric(lines)
    ensures AddsUp(WithSignOf(lines, total), total) <==> FlipIsClose(lines, total)
  {
    SumWithSign(lines, total);
    MagnitudesAreWhole(lines);
    NegatedWholeCents(Magnitudes(lines));
  }

  lemma OneLineAddsUp(line: Line, total: real)
    requires line.amount == Num(total)
    ensures AddsUp([line], total)
  {
    assert Sum([line]) == total;
    assert Abs(Round2(total) - total) <= 0.01;
  }

  /**
   * The normalized items add up to the total within its tolerance exactly when the sign is not flipped,
   * or the sum of all magnitudes is within the tolerance as well.
   */
  lemma NormalizedAddsUpIff(items: seq<RawItem>, total: real, category: string, account: string)
    ensures var lines := Readable(items, category, account);
            AddsUp(NormalizeLineItems(items, Num(total), category, account), total)
            <==> (Flipped(lines, total) ==> FlipIsClose(lines, total))
  {
    var lines := Readable(items, category, account);
    EmptyNotFlipped(total);
    FlippedAddsUpIff(lines, total);
    OneLineAddsUp(Line(Num(total), category, account), total);
  }

  /** For lines of whole cents: flipping counts the lines of the other sign twice. */
  lemma FlipCountsTwice(lines: seq<Line>)
    requires Numeric(lines) && AllWholeCents(lines)
    ensures Magnitudes(lines) == Abs(Sum(lines)) + 2.0 * Minority(lines)
  {
    SumSplits(lines);
    MagnitudesAreWhole(lines);
  }

  lemma EmptyNotFlipped(total: real)
    ensures !Flipped([], total)
  {
    assert WholeCents(0.0);
  }

  /** All amounts have one sign. */
  ghost predicate OneSign(lines: seq<Line>)
    requires Numeric(lines)
  {
    (forall l :: l in lines ==> l.amount.value >= 0.0) || (forall l :: l in lines ==> l.amount.value <= 0.0)
  }

  lemma {:induction false} OneSignNoMinority(lines: seq<Line>)
    requires Numeric(lines)
    ensures (forall l :: l in lines ==> l.amount.value >= 0.0) ==> Negative(lines) == 0.0
    ensures (forall l :: l in lines ==> l.amount.value <= 0.0) ==> Positive(lines) == 0.0
  {
    if lines != [] {
      OneSignNoMinority(lines[..|lines| - 1]);
      assert lines[|lines| - 1] in lines;
    }
  }

  predicate SignOf(lines: seq<Line>, total: real) {
    forall l :: l in lines ==> l.amount.Num? && if total < 0.0 then l.amount.value <= 0.0 else l.amount.value >= 0.0
  }

  /** With lines of one sign the items add up to the total, and a corrected sign is the total's. */
  lemma OneSignAddsUp(items: seq<RawItem>, total: real, category: string, account: string)
    requires var lines := Readable(items, category, account); AllWholeCents(lines) && OneSign(lines)
    ensures var r := NormalizeLineItems(items, Num(total), category, account);
            && AddsUp(r, total)
            && (Flipped(Readable(items, category, account), total) ==> SignOf(r, total))
  {
    var lines := Readable(items, category, account);
    NormalizedAddsUpIff(items, total, category, account);
    FlipCountsTwice(lines);
    OneSignNoMinority(lines);
    SumSplits(lines);
    EmptyNotFlipped(total);
    SignIsTotals(lines, total);
    assert Round2(Sum(lines)) == Sum(lines);
  }

  lemma SignIsTotals(lines: seq<Line>, total: real)
    requires Numeric(lines) && AllWholeCents(lines)
    ensures SignOf(WithSignOf(lines, total), total)
  {
    var r := WithSignOf(lines, total);
    forall l | l in r ensures l.amount.Num? && if total < 0.0 then l.amount.value <= 0.0 else l.amount.value >= 0.0 {
      var i :| 0 <= i < |r| && r[i] == l;
      assert lines[i] in lines;
      SignedWholeCents(lines[i], total);
    }
  }

  lemma TwoLines(a: Line, b: Line)
    requires a.amount == Num(10.0) && b.amount == Num(-4.0)
    ensures Sum([a, b]) == 6.0 && Flipped([a, b], -6.0) && Sum(WithSignOf([a, b], -6.0)) == -14.0
  {
    Snoc([], a, -6.0);
    Snoc([a], b, -6.0);
    assert [] + [a] == [a] && [a] + [b] == [a, b];
    assert WholeCents(6.0) && WholeCents(10.0) && WholeCents(4.0);
    SumWithSign([a, b], -6.0);
  }

  /** 10 and -4 against -6 become -10 and -4. */
  lemma MixedSignsFlipWrongly(category: string, account: string)
    ensures var items := [Item(Num(10.0), "", ""), Item(Num(-4.0), "", "")];
            var r := NormalizeLineItems(items, Num(-6.0), category, account);
            Numeric(r) && Sum(r) == -14.0
  {
    var a, b := Line(Num(10.0), category, account), Line(Num(-4.0), category, account);
    var items := [Item(Num(10.0), "", ""), Item(Num(-4.0), "", "")];
    assert items[..1] == [items[0]] && items[..1][..0] == [];
    assert Readable(items[..1], category, account) == [a];
    assert Readable(items, category, account) == [a, b];
    TwoLines(a, b);
  }

  // ------------------------------------------------------------------------------------------
  // A transaction balances
  // ------------------------------------------------------------------------------------------

  /** The line of the transaction that a given line becomes. */
  ghost predicate Becomes(resolve: Resolver, input: LineInput, balance: Balance, line: TransactionLine) {
    && input.OneLine? && input.line.amount.Num? && line.cents > 0 && line.accountId != ""
    && line == TransactionLine(resolve(input.line), UnsignedHalfUp(input.line.amount.value), balance)
  }

  ghost predicate AllBecome(resolve: Resolver, inputs: seq<LineInput>, balance: Balance,
                            lines: seq<TransactionLine>)
  {
    |lines| == |inputs| && forall i :: 0 <= i < |lines| ==> Becomes(resolve, inputs[i], balance, lines[i])
  }

  lemma {:induction false} LinesAreComplete(resolve: Resolver, inputs: seq<LineInput>, balance: Balance)
    requires MissingOf(resolve, inputs) == []
    ensures AllBecome(resolve, inputs, balance, LinesOf(resolve, inputs, balance))
  {
    if inputs != [] {
      var n := |inputs| - 1;
      NextLine(resolve, inputs, n, balance);
      assert inputs[..n + 1] == inputs && inputs[..n] + [inputs[n]] == inputs;
      LinesAreComplete(resolve, inputs[..n], balance);
    }
  }

  /** Positive cents that add up to the anchor amount, one line per given line or one for none. */
  ghost predicate Balanced(t: Transaction, inputs: nat) {
    && t.cents > 0 && SumCents(t.lines) == t.cents
    && (forall l :: l in t.lines ==> l.cents > 0 && l.accountId != "")
    && |t.lines| == if inputs == 0 then 1 else inputs
  }

  predicate OneDirection(t: Transaction, credit: bool) {
    && t.direction == (if credit then Deposit else Withdrawal)
    && forall l :: l in t.lines ==> l.balance == if credit then Decrease else Increase
  }

  /** Lines with nothing missing are balanced against the total. */
  lemma CompleteLinesBalance(accounts: Accounts, inputs: seq<LineInput>, category: string, total: nat, balance: Balance)
    requires total > 0 && ExpenseLines(accounts, inputs, category, Some(total), balance).1 == []
    ensures var lines := ExpenseLines(accounts, inputs, category, Some(total), balance).0;
            && (inputs != [] ==> AllBecome(ResolverOf(accounts, category), inputs, balance, lines))
            && SumCents(lines) == total && |lines| == (if inputs == [] then 1 else |inputs|)
            && forall l :: l in lines ==> l.cents > 0 && l.accountId != "" && l.balance == balance
  {
    var lines := ExpenseLines(accounts, inputs, category, Some(total), balance).0;
    if inputs == [] {
      assert lines[..0] == [];
    } else {
      var resolve := ResolverOf(accounts, category);
      LinesAreComplete(resolve, inputs, balance);
      forall l | l in lines ensures l.cents > 0 && l.accountId != "" && l.balance == balance {
        var i :| 0 <= i < |lines| && lines[i] == l;
        assert Becomes(resolve, inputs[i], balance, lines[i]);
      }
    }
  }

  /** Whatever the builder accepts is balanced, all on one side, and made of the given lines in order. */
  lemma AcceptedIsBalanced(accounts: Accounts, data: Data)
    requires BuildTransaction(accounts, data).Success?
    ensures var t := BuildTransaction(accounts, data).transaction;
            && Balanced(t, |data.lines|) && OneDirection(t, IsCredit(data))
            && Some(t.cents) == UnsignedAmount(data.total)
            && (data.lines != [] ==> AllBecome(ResolverOf(accounts, Strip(data.category)), data.lines,
                                               if IsCredit(data) then Decrease else Increase, t.lines))
  {
    var total := UnsignedAmount(data.total);
    var balance := if IsCredit(data) then Decrease else Increase;
    assert HeaderMissing(accounts, data) == [];
    CompleteLinesBalance(accounts, data.lines, Strip(data.category), total.value, balance);
  }

  /** Exactly when a transaction with line items is accepted. */
  lemma AcceptedIff(accounts: Accounts, data: Data)
    requires data.lines != []
    ensures BuildTransaction(accounts, data).Success? <==>
              && HeaderMissing(accounts, data) == []
              && MissingOf(ResolverOf(accounts, Strip(data.category)), data.lines) == []
              && Some(SumCents(LinesOf(ResolverOf(accounts, Strip(data.category)), data.lines,
                                       if IsCredit(data) then Decrease else Increase))) == UnsignedAmount(data.total)
  {
    var total := UnsignedAmount(data.total);
    assert total.None? ==> TotalAmount in HeaderMissing(accounts, data);
  }

  // ------------------------------------------------------------------------------------------
  // The whole path
  // ------------------------------------------------------------------------------------------

  function Post(accounts: Accounts, doc: DocumentData, category: string, defaultAccount: string): Result {
    BuildTransaction(accounts, CategorizedData(BuildPayload(doc, category, defaultAccount)))
  }

  /** No upper case, no separators, no surrounding space. */
  predicate NormalChar(c: char) {
    !('A' <= c <= 'Z') && c != ' ' && c != '-'
  }

  predicate NormalType(s: string) {
    && (forall i :: 0 <= i < |s| ==> NormalChar(s[i]))
    && (s != [] ==> !IsSpace(s[0]) && !IsSpace(s[|s| - 1]))
  }

  lemma {:induction false} ReplaceChar(s: string, c: char)
    ensures |Replace(s, c, "_")| == |s|
    ensures forall i :: 0 <= i < |s| ==> Replace(s, c, "_")[i] == if s[i] == c then '_' else s[i]
  {
    if s != [] {
      ReplaceChar(s[1..], c);
    }
  }

  /** One character of the normalized type. */
  function NormalizedChar(c: char): char {
    if c == ' ' || c == '-' then '_' else if 'A' <= c <= 'Z' then c - 'A' + 'a' else c
  }

  lemma CharByChar(s: string)
    ensures var r := Replace(Replace(Lower(s), ' ', "_"), '-', "_");
            |r| == |s| && forall i :: 0 <= i < |s| ==> r[i] == NormalizedChar(s[i])
  {
    ReplaceChar(Lower(s), ' ');
    ReplaceChar(Replace(Lower(s), ' ', "_"), '-');
  }

  lemma NormalizedIsNormal(text: string)
    ensures NormalType(NormalizeType(text)) && |NormalizeType(text)| == |Strip(text)|
  {
    CharByChar(Strip(text));
  }

  lemma NormalIsFixed(s: string)
    requires NormalType(s)
    ensures NormalizeType(s) == s
  {
    CharByChar(s);
  }

  lemma NotACreditNote(s: string)
    requires s == "receipt" || s == "vendor_invoice"
    ensures NormalType(s) && s != CREDIT_NOTE
  {
    assert |s| == 7 || |s| == 14;
  }

  /** The builder recognizes a credit note exactly when the payload did. */
  lemma CreditSurvives(text: string)
    ensures NormalizeType(PayloadType(text)) == PayloadType(text)
    ensures PayloadType(text) == CREDIT_NOTE <==> NormalizeType(text) == CREDIT_NOTE
  {
    var normalized := NormalizeType(text);
    NormalizedIsNormal(text);
    NormalIsFixed(normalized);
    if PayloadType(text) != normalized {
      NotACreditNote(PayloadType(text));
      NormalIsFixed(PayloadType(text));
    }
  }

  /**
   * Whatever the payload's tolerance lets through: a posted document is balanced, has one line per
   * payload line, and is a deposit with decreasing lines if and only if it is a credit note.
   */
  lemma PostedIsBalanced(accounts: Accounts, doc: DocumentData, category: string, defaultAccount: string)
    ensures var posted, p := Post(accounts, doc, category, defaultAccount), BuildPayload(doc, category, defaultAccount);
            posted.Success? ==>
              && p.lines != [] && Balanced(posted.transaction, |p.lines|)
              && OneDirection(posted.transaction, NormalizeType(doc.documentType) == CREDIT_NOTE)
              && RoutedAsTransaction(PayloadType(doc.documentType))
              && p.amount.Num? && posted.transaction.cents == UnsignedHalfUp(p.amount.value)
  {
    var p := BuildPayload(doc, category, defaultAccount);
    if Post(accounts, doc, category, defaultAccount).Success? {
      AcceptedIsBalanced(accounts, CategorizedData(p));
      CreditSurvives(doc.documentType);
    }
  }

  /** Payload lines that became lines of cents. */
  predicate LinesReady(accounts: Accounts, p: Payload, balance: Balance) {
    var resolve, inputs := ResolverOf(accounts, Strip(p.category)), CategorizedData(p).lines;
    MissingOf(resolve, inputs) == [] && Some(SumCents(LinesOf(resolve, inputs, balance))) == UnsignedAmount(p.amount)
  }

  /**
   * Exactly which documents post: those routed as a transaction, with accounts, date and amount,
   * whose payload lines all have an account and add up to the amount to the cent.
   */
  lemma PostsIff(accounts: Accounts, doc: DocumentData, category: string, defaultAccount: string)
    ensures var p := BuildPayload(doc, category, defaultAccount);
            Post(accounts, doc, category, defaultAccount).Success? <==>
              && RoutedAsTransaction(PayloadType(doc.documentType))
              && accounts.businessId != "" && accounts.anchorId != "" && doc.date.Some?
              && LinesReady(accounts, p, if NormalizeType(doc.documentType) == CREDIT_NOTE then Decrease else Increase)
  {
    var p := BuildPayload(doc, category, defaultAccount);
    AcceptedIff(accounts, CategorizedData(p));
    CreditSurvives(doc.documentType);
  }
}
