/**
 * The total amount of a document text (src/document_processors/financial_field_extractor.py).
 * A line is what the patterns and labels find on it; confidences are in thousandths.
 */
module TotalScan {
  import opened Text
  import opened Money

  datatype Found = Found(value: real, currency: Option<string>, position: nat)

  /** `column` is an amount at the start of the line with little else behind it. */
  datatype Labels = Labels(
    total: bool, paymentText: bool, paymentWord: bool, nonPayableTotal: bool, nonPayableAmount: bool,
    rounding: bool, refund: bool, columnarRefund: bool, paymentMetadata: bool,
    vatSummary: bool, vatHeader: bool, grossHeader: bool, column: Option<Found>)

  datatype Line = Blank | Written(amounts: seq<Found>, labels: Labels)

  const NOTHING := Labels(false, false, false, false, false, false, false, false, false, false, false, false, None)

  function LabelsOf(line: Line): Labels {
    if line.Blank? then NOTHING else line.labels
  }

  datatype Candidate = Candidate(amount: real, currency: Option<string>, confidence: int, line: int, position: nat)

  datatype Total = NoTotal | Total(amount: real, currency: Option<string>, confidence: int)

  // ------------------------------------------------------------------------------------------
  // What one line contributes
  // ------------------------------------------------------------------------------------------

  datatype VatTotal = VatTotal(amount: real, currency: Option<string>, confidence: int, position: nat)

  function Either(a: Option<string>, b: Option<string>): Option<string> {
    if a.Some? && a.value != "" then a else b
  }

  function VatOfThree(vat: Found, net: Found, gross: Found): Option<VatTotal> {
    var v, n, g := Abs(vat.value), Abs(net.value), Abs(gross.value);
    if g > 0.0 && Abs(v + n - g) <= Max(0.02, g / 100.0) then Some(VatTotal(g, gross.currency, 990, gross.position))
    else if 0.0 < v <= n * 0.3 then Some(VatTotal(Round2(v + n), Either(net.currency, vat.currency), 940, net.position))
    else None
  }

  function VatOfTwo(first: Found, second: Found, vatHeader: bool, grossHeader: bool): Option<VatTotal> {
    var a, b := Abs(first.value), Abs(second.value);
    if a > b > 0.0 && b <= a * 0.3 && vatHeader then
      Some(VatTotal(Round2(a + b), Either(first.currency, second.currency), 940, first.position))
    else if b > a > 0.0 && (grossHeader || b - a <= b * 0.25) then
      Some(VatTotal(b, second.currency, 920, second.position))
    else if 0.0 < a <= b * 0.3 then
      Some(VatTotal(Round2(a + b), Either(second.currency, first.currency), 940, second.position))
    else None
  }

  function VatSummaryTotal(amounts: seq<Found>, previous: Labels, labels: Labels): Option<VatTotal> {
    var n := |amounts|;
    if n >= 3 then VatOfThree(amounts[n - 3], amounts[n - 2], amounts[n - 1])
    else if n == 2 then
      VatOfTwo(amounts[0], amounts[1], previous.vatHeader || labels.vatHeader,
               previous.grossHeader || labels.grossHeader)
    else None
  }

  /** The last negative amount, if there is one. */
  function LastNegative(amounts: seq<Found>): (f: Option<Found>)
    ensures f.None? <==> forall a :: a in amounts ==> a.value >= 0.0
  {
    if amounts == [] then None
    else if amounts[|amounts| - 1].value < 0.0 then Some(amounts[|amounts| - 1])
    else LastNegative(amounts[..|amounts| - 1])
  }

  function From(f: Found, amount: real, confidence: int, line: int): Candidate {
    Candidate(amount, f.currency, confidence, line, f.position)
  }

  datatype Role = Skip | VatSummary | Plain(confidence: int, found: Found, amount: real) | Unlabelled

  /** How a line with amounts is read, given the labels of the line before and whether that line announced a total. */
  function RoleOf(amounts: seq<Found>, labels: Labels, previous: Labels, pending: bool, refundMarker: bool): Role
    requires amounts != []
  {
    var last := amounts[|amounts| - 1];
    if labels.nonPayableTotal || (!labels.total && labels.nonPayableAmount) then Skip
    else if labels.rounding then Plain(1000, last, last.value)
    else if refundMarker && labels.total && |amounts| >= 2 && LastNegative(amounts).Some? then
      Plain(998, LastNegative(amounts).value, LastNegative(amounts).value.value)
    else if labels.refund then Plain(997, last, -Abs(last.value))
    else if labels.paymentWord then Plain(997, last, last.value)
    else if labels.total && !labels.vatSummary && |amounts| == 1 then Plain(999, amounts[0], amounts[0].value)
    else if labels.total || labels.vatSummary || previous.vatSummary then VatSummary
    else if pending && |amounts| == 1 && !labels.paymentMetadata && !previous.columnarRefund then
      Plain(880, amounts[0], amounts[0].value)
    else Unlabelled
  }

  /** The candidates of a line by its role. */
  function Candidates(role: Role, amounts: seq<Found>, labels: Labels, previous: Labels, index: int): seq<Candidate> {
    match role
    case Skip => []
    case Plain(confidence, found, amount) => [From(found, amount, confidence, index)]
    case VatSummary =>
      var vat := VatSummaryTotal(amounts, previous, labels);
      if vat.None? then []
      else [Candidate(vat.value.amount, vat.value.currency, vat.value.confidence, index, vat.value.position)]
    case Unlabelled => seq(|amounts|, k requires 0 <= k < |amounts| => From(amounts[k], amounts[k].value, 550, index))
  }

  // ------------------------------------------------------------------------------------------
  // What a text contributes: every line by itself
  // ------------------------------------------------------------------------------------------

  /** The nearest line before `i` that is not blank; blank if there is none. */
  function Previous(lines: seq<Line>, i: nat): Line
    requires i <= |lines|
  {
    if i == 0 then Blank else if lines[i - 1].Written? then lines[i - 1] else Previous(lines, i - 1)
  }

  /** A line without amounts but with a label of a total. */
  predicate Announces(line: Line) {
    line.Written? && line.amounts == [] && (line.labels.total || line.labels.paymentText)
  }

  predicate AnyLabel(lines: seq<Line>, wanted: Labels -> bool) {
    exists i :: 0 <= i < |lines| && wanted(LabelsOf(lines[i]))
  }

  predicate TotalLabel(labels: Labels) {
    labels.total
  }

  predicate RefundMarker(labels: Labels) {
    labels.refund || labels.columnarRefund
  }

  /** The candidates of a line, or only those that are VAT summaries. */
  function LineCandidates(line: Line, previous: Line, marker: bool, vatOnly: bool, index: int): seq<Candidate> {
    if line.Blank? || line.amounts == [] then []
    else
      var role := RoleOf(line.amounts, line.labels, LabelsOf(previous), Announces(previous), marker);
      if vatOnly && !role.VatSummary? then []
      else Candidates(role, line.amounts, line.labels, LabelsOf(previous), index)
  }

  /** What a line contributes, given the written line before it and its own index. */
  type Contribution = (Line, Line, int) -> seq<Candidate>

  function All(marker: bool): Contribution {
    (line: Line, previous: Line, index: int) => LineCandidates(line, previous, marker, false, index)
  }

  function VatOnly(marker: bool): Contribution {
    (line: Line, previous: Line, index: int) => LineCandidates(line, previous, marker, true, index)
  }

  function ScanTo(lines: seq<Line>, contribution: Contribution, n: nat): seq<Candidate>
    requires n <= |lines|
  {
    if n == 0 then []
    else ScanTo(lines, contribution, n - 1) + contribution(lines[n - 1], Previous(lines, n - 1), n - 1)
  }

  predicate Paid(amount: real, payments: seq<real>) {
    exists k :: 0 <= k < |payments| && Abs(Abs(amount) - payments[k]) <= 0.01
  }

  /** The VAT summaries that a payment confirms, with full confidence. */
  function Confirmed(vat: seq<Candidate>, payments: seq<real>): seq<Candidate> {
    if vat == [] then []
    else
      var n := |vat| - 1;
      Confirmed(vat[..n], payments) + if Paid(vat[n].amount, payments) then [vat[n].(confidence := 1000)] else []
  }

  // ------------------------------------------------------------------------------------------
  // Refunds in a column below their label
  // ------------------------------------------------------------------------------------------

  datatype Row = Row(found: Found, line: int)

  /** The amounts at the start of the lines from `lo` to before `hi`. */
  function Rows(lines: seq<Line>, lo: nat, hi: nat): seq<Row>
    requires lo <= hi <= |lines|
  {
    if lo == hi then []
    else
      Rows(lines, lo, hi - 1)
      + if LabelsOf(lines[hi - 1]).column.Some? then [Row(LabelsOf(lines[hi - 1]).column.value, hi - 1)] else []
  }

  function Window(lines: seq<Line>, heading: nat): (hi: nat)
    requires heading < |lines|
    ensures heading + 1 <= hi <= |lines|
  {
    if heading + 9 < |lines| then heading + 9 else |lines|
  }

  /** Two refunds and their sum. */
  predicate IsRefundColumn(rows: seq<Row>) {
    && |rows| >= 3
    && var a, b, total := rows[0].found.value, rows[1].found.value, rows[2].found.value;
       total < 0.0 && a < 0.0 && b < 0.0 && Abs(a + b - total) <= Max(0.02, Abs(total) * 0.005)
  }

  predicate IsRefundAt(lines: seq<Line>, heading: nat)
    requires heading < |lines|
  {
    LabelsOf(lines[heading]).columnarRefund && IsRefundColumn(Rows(lines, heading + 1, Window(lines, heading)))
  }

  /** The sum of the refunds below the first label, from `heading` on, that has them. */
  function ColumnarRefund(lines: seq<Line>, heading: nat): seq<Candidate>
    requires heading <= |lines|
    decreases |lines| - heading
  {
    if heading == |lines| then []
    else if IsRefundAt(lines, heading) then
      var row := Rows(lines, heading + 1, Window(lines, heading))[2];
      [From(row.found, row.found.value, 998, row.line)]
    else ColumnarRefund(lines, heading + 1)
  }

  lemma {:induction false} RowsGrow(lines: seq<Line>, lo: nat, mid: nat, hi: nat)
    requires lo <= mid <= hi <= |lines|
    ensures Rows(lines, lo, mid) <= Rows(lines, lo, hi)
    decreases hi - mid
  {
    if mid < hi {
      RowsGrow(lines, lo, mid, hi - 1);
    }
  }

  method ColumnarRefundTotal(lines: seq<Line>) returns (r: seq<Candidate>)
    ensures r == ColumnarRefund(lines, 0)
  {
    var heading := 0;
    while heading < |lines|
      invariant heading <= |lines| && ColumnarRefund(lines, 0) == ColumnarRefund(lines, heading)
    {
      if LabelsOf(lines[heading]).columnarRefund {
        var rows: seq<Row> := [];
        var hi := Window(lines, heading);
        var i := heading + 1;
        while i < hi && |rows| < 3
          invariant heading + 1 <= i <= hi && rows == Rows(lines, heading + 1, i) && |rows| <= 3
        {
          if LabelsOf(lines[i]).column.Some? {
            rows := rows + [Row(LabelsOf(lines[i]).column.value, i)];
          }
          i := i + 1;
        }
        RowsGrow(lines, heading + 1, i, hi);
        if IsRefundColumn(rows) {
          return [From(rows[2].found, rows[2].found.value, 998, rows[2].line)];
        }
      }
      heading := heading + 1;
    }
    r := [];
  }

  // ------------------------------------------------------------------------------------------
  // The choice
  // ------------------------------------------------------------------------------------------

  predicate Below(c: Candidate, d: Candidate) {
    c.line < d.line || (c.line == d.line && c.position < d.position)
  }

  function Highest(cs: seq<Candidate>): int
    requires cs != []
  {
    var n := |cs| - 1;
    if n == 0 then cs[0].confidence
    else
      var h := Highest(cs[..n]);
      if cs[n].confidence > h then cs[n].confidence else h
  }

  function Finalists(cs: seq<Candidate>, confidence: int): seq<Candidate> {
    if cs == [] then []
    else
      var n := |cs| - 1;
      Finalists(cs[..n], confidence) + if cs[n].confidence == confidence then [cs[n]] else []
  }

  /** The first of those furthest down the text. */
  function LastInText(cs: seq<Candidate>): Candidate
    requires cs != []
  {
    var n := |cs| - 1;
    if n == 0 then cs[0]
    else
      var c := LastInText(cs[..n]);
      if Below(c, cs[n]) then cs[n] else c
  }

  predicate OneMagnitude(cs: seq<Candidate>) {
    forall k :: 0 <= k < |cs| ==> HalfEven(Abs(cs[k].amount)) == HalfEven(Abs(cs[0].amount))
  }

  function Choice(cs: seq<Candidate>, hasTotalLabel: bool): Total {
    if cs == [] then NoTotal
    else if Highest(cs) < 850 then
      var last := cs[|cs| - 1];
      if hasTotalLabel && OneMagnitude(cs) then Total(last.amount, last.currency, 850) else NoTotal
    else
      FinalistsExist(cs);
      var c := LastInText(Finalists(cs, Highest(cs)));
      Total(c.amount, c.currency, c.confidence)
  }

  lemma {:induction false} FinalistsExist(cs: seq<Candidate>)
    requires cs != []
    ensures Finalists(cs, Highest(cs)) != []
  {
    var n := |cs| - 1;
    if n > 0 {
      FinalistsExist(cs[..n]);
    }
  }

  function AllCandidates(lines: seq<Line>, payments: seq<real>): seq<Candidate> {
    var marker := AnyLabel(lines, RefundMarker);
    ColumnarRefund(lines, 0) + ScanTo(lines, All(marker), |lines|)
    + Confirmed(ScanTo(lines, VatOnly(marker), |lines|), payments)
  }

  /** The total of a text, every line read by itself with the nearest written line before it. */
  function TotalOf(lines: seq<Line>, payments: seq<real>): Total {
    Choice(AllCandidates(lines, payments), AnyLabel(lines, TotalLabel))
  }

  /** The one pass of the source, with the previous line and a pending label carried along. */
  method ScanLines(lines: seq<Line>, marker: bool) returns (candidates: seq<Candidate>, vatCandidates: seq<Candidate>)
    ensures candidates == ScanTo(lines, All(marker), |lines|)
    ensures vatCandidates == ScanTo(lines, VatOnly(marker), |lines|)
  {
    candidates, vatCandidates := [], [];
    var previous := NOTHING;
    var pending := false;
    for i := 0 to |lines|
      invariant candidates == ScanTo(lines, All(marker), i)
      invariant vatCandidates == ScanTo(lines, VatOnly(marker), i)
      invariant previous == LabelsOf(Previous(lines, i)) && pending == Announces(Previous(lines, i))
    {
      match lines[i] {
        case Blank =>
        case Written(amounts, labels) =>
          if amounts == [] {
            pending := labels.total || labels.paymentText;
          } else {
            var role := RoleOf(amounts, labels, previous, pending, marker);
            pending := false;
            var more := Candidates(role, amounts, labels, previous, i);
            candidates := candidates + more;
            if role.VatSummary? {
              vatCandidates := vatCandidates + more;
            }
          }
          previous := labels;
      }
    }
  }

  method ConfirmPayments(vat: seq<Candidate>, payments: seq<real>) returns (confirmed: seq<Candidate>)
    ensures confirmed == Confirmed(vat, payments)
  {
    confirmed := [];
    for k := 0 to |vat|
      invariant confirmed == Confirmed(vat[..k], payments)
    {
      assert vat[..k + 1][..k] == vat[..k];
      if Paid(vat[k].amount, payments) {
        confirmed := confirmed + [vat[k].(confidence := 1000)];
      }
    }
    assert vat[..|vat|] == vat;
  }

  method ExtractTotalAmount(lines: seq<Line>, payments: seq<real>) returns (total: Total)
    ensures total == TotalOf(lines, payments)
  {
    var candidates := ColumnarRefundTotal(lines);
    var scanned, vat := ScanLines(lines, AnyLabel(lines, RefundMarker));
    var confirmed := ConfirmPayments(vat, payments);
    total := Choice(candidates + scanned + confirmed, AnyLabel(lines, TotalLabel));
  }

  // ------------------------------------------------------------------------------------------
  // The carried variables are functions of the line before
  // ------------------------------------------------------------------------------------------

  /** `Previous` is the nearest written line, and blank only when there is none. */
  lemma {:induction false} PreviousIsNearest(lines: seq<Line>, i: nat) returns (j: int)
    requires i <= |lines|
    ensures -1 <= j < i
    ensures forall k :: j < k < i ==> lines[k].Blank?
    ensures if j == -1 then Previous(lines, i).Blank? else lines[j].Written? && Previous(lines, i) == lines[j]
  {
    if i == 0 {
      j := -1;
    } else if lines[i - 1].Written? {
      j := i - 1;
    } else {
      j := PreviousIsNearest(lines, i - 1);
    }
  }

  // ------------------------------------------------------------------------------------------
  // The choice, declaratively
  // ------------------------------------------------------------------------------------------

  /** More confident, or as confident and further down the text. */
  predicate Better(c: Candidate, d: Candidate) {
    c.confidence > d.confidence || (c.confidence == d.confidence && Below(d, c))
  }

  /** Nothing is better, and nothing before it is as good. */
  ghost predicate IsBest(cs: seq<Candidate>, k: int) {
    && 0 <= k < |cs|
    && (forall j :: 0 <= j < |cs| ==> !Better(cs[j], cs[k]))
    && (forall j :: 0 <= j < k ==> Better(cs[k], cs[j]))
  }

  predicate AllBelow(cs: seq<Candidate>, confidence: int) {
    forall k :: 0 <= k < |cs| ==> cs[k].confidence < confidence
  }

  lemma {:induction false} HighestBounds(cs: seq<Candidate>)
    requires cs != []
    ensures forall k :: 0 <= k < |cs| ==> cs[k].confidence <= Highest(cs)
    ensures AllBelow(cs, 850) <==> Highest(cs) < 850
  {
    if |cs| > 1 {
      HighestBounds(cs[..|cs| - 1]);
    }
    FinalistHasConfidence(cs);
  }

  lemma {:induction false} FinalistHasConfidence(cs: seq<Candidate>)
    requires cs != []
    ensures exists k :: 0 <= k < |cs| && cs[k].confidence == Highest(cs)
  {
    var n := |cs| - 1;
    if n > 0 {
      FinalistHasConfidence(cs[..n]);
      var k :| 0 <= k < n && cs[..n][k].confidence == Highest(cs[..n]);
      assert cs[k].confidence == Highest(cs[..n]);
    }
    assert cs[n].confidence == Highest(cs) || n > 0;
  }

  lemma {:induction false} NoneAbove(cs: seq<Candidate>, confidence: int)
    requires AllBelow(cs, confidence)
    ensures Finalists(cs, confidence) == []
  {
    if cs != [] {
      NoneAbove(cs[..|cs| - 1], confidence);
    }
  }

  function Best(cs: seq<Candidate>): Candidate
    requires cs != []
  {
    FinalistsExist(cs);
    LastInText(Finalists(cs, Highest(cs)))
  }

  lemma BestStep(cs: seq<Candidate>, c: Candidate)
    requires cs != []
    ensures Best(cs + [c]) == if Better(c, Best(cs)) then c else Best(cs)
  {
    assert (cs + [c])[..|cs|] == cs;
    FinalistsExist(cs);
    var h := Highest(cs);
    var fs := Finalists(cs, h);
    LastIsMember(fs);
    FinalistsConfident(cs, h);
    if c.confidence > h {
      HighestBounds(cs);
      NoneAbove(cs, c.confidence);
      assert Finalists(cs + [c], c.confidence) == [c];
    } else if c.confidence == h {
      assert Finalists(cs + [c], h) == fs + [c] && (fs + [c])[..|fs|] == fs;
    } else {
      assert Finalists(cs + [c], h) == fs;
    }
  }

  lemma {:induction false} LastIsMember(cs: seq<Candidate>)
    requires cs != []
    ensures LastInText(cs) in cs
  {
    if |cs| > 1 {
      LastIsMember(cs[..|cs| - 1]);
    }
  }

  lemma {:induction false} FinalistsConfident(cs: seq<Candidate>, confidence: int)
    ensures forall c :: c in Finalists(cs, confidence) ==> c.confidence == confidence
  {
    if cs != [] {
      FinalistsConfident(cs[..|cs| - 1], confidence);
    }
  }

  lemma {:induction false} BestIsBest(cs: seq<Candidate>) returns (k: nat)
    requires cs != []
    ensures IsBest(cs, k) && Best(cs) == cs[k]
  {
    var n := |cs| - 1;
    var c := cs[n];
    k := n;
    if n > 0 {
      var j: nat := BestIsBest(cs[..n]);
      assert cs[..n] + [c] == cs && cs[..n][j] == cs[j];
      BestStep(cs[..n], c);
      if !Better(c, cs[j]) {
        k := j;
      }
    } else {
      assert Finalists(cs, c.confidence) == [c];
    }
  }

  ghost predicate IsChoice(cs: seq<Candidate>, hasTotalLabel: bool, t: Total) {
    if cs == [] then t.NoTotal?
    else if AllBelow(cs, 850) then
      var last := cs[|cs| - 1];
      t == if hasTotalLabel && OneMagnitude(cs) then Total(last.amount, last.currency, 850) else NoTotal
    else exists k :: IsBest(cs, k) && t == Total(cs[k].amount, cs[k].currency, cs[k].confidence)
  }

  /**
   * The total is the candidate of maximal confidence furthest down the text. Below 0.85 there is one
   * only with a total label and when all candidates agree on the magnitude.
   */
  lemma ChoiceIff(cs: seq<Candidate>, hasTotalLabel: bool, t: Total)
    ensures t == Choice(cs, hasTotalLabel) <==> IsChoice(cs, hasTotalLabel, t)
  {
    if cs != [] {
      HighestBounds(cs);
      var k := BestIsBest(cs);
      assert IsBest(cs, k);
    }
  }

  // ------------------------------------------------------------------------------------------
  // Which line decides
  // ------------------------------------------------------------------------------------------

  /** A payable line with an amount and the label of a rounded total. */
  predicate RoundingLine(line: Line) {
    && line.Written? && line.amounts != [] && line.labels.rounding
    && !line.labels.nonPayableTotal && (line.labels.total || !line.labels.nonPayableAmount)
  }

  /** A payable line with one amount and the label of a total, and of nothing else that matters. */
  predicate TotalLine(line: Line) {
    && line.Written? && |line.amounts| == 1 && line.labels.total && !line.labels.nonPayableTotal
    && !line.labels.rounding && !line.labels.refund && !line.labels.paymentWord && !line.labels.vatSummary
  }

  /** What the line itself says. */
  function Stated(line: Line, index: int): Candidate
    requires RoundingLine(line) || TotalLine(line)
  {
    var last := line.amounts[|line.amounts| - 1];
    From(last, last.value, if RoundingLine(line) then 1000 else 999, index)
  }

  ghost predicate ComesFrom(lines: seq<Line>, contribution: Contribution, i: int, c: Candidate) {
    0 <= i < |lines| && c in contribution(lines[i], Previous(lines, i), i)
  }

  lemma {:induction false} ScanHas(lines: seq<Line>, contribution: Contribution, n: nat, c: Candidate)
    requires n <= |lines|
    ensures c in ScanTo(lines, contribution, n) <==> exists i :: i < n && ComesFrom(lines, contribution, i, c)
  {
    if n > 0 {
      ScanHas(lines, contribution, n - 1, c);
      assert c in contribution(lines[n - 1], Previous(lines, n - 1), n - 1)
          <==> ComesFrom(lines, contribution, n - 1, c);
    }
  }

  lemma {:induction false} ColumnConfidence(lines: seq<Line>, heading: nat)
    requires heading <= |lines|
    ensures forall c :: c in ColumnarRefund(lines, heading) ==> c.confidence == 998
    decreases |lines| - heading
  {
    if heading < |lines| {
      ColumnConfidence(lines, heading + 1);
    }
  }

  /** A VAT summary that a payment confirms. */
  ghost predicate Confirms(vat: seq<Candidate>, payments: seq<real>, v: Candidate, c: Candidate) {
    v in vat && Paid(v.amount, payments) && c == v.(confidence := 1000)
  }

  lemma {:induction false} ConfirmedHas(vat: seq<Candidate>, payments: seq<real>, c: Candidate)
    ensures c in Confirmed(vat, payments) <==> exists v :: Confirms(vat, payments, v, c)
  {
    if vat != [] {
      var init, last := vat[..|vat| - 1], vat[|vat| - 1];
      ConfirmedHas(init, payments, c);
      assert vat == init + [last];
      assert Confirms(vat, payments, last, last.(confidence := 1000)) <==> Paid(last.amount, payments);
      if v :| Confirms(vat, payments, v, c) {
        assert v == last || Confirms(init, payments, v, c);
      }
      if v :| Confirms(init, payments, v, c) {
        assert Confirms(vat, payments, v, c);
      }
    }
  }

  function VatAt(lines: seq<Line>, i: nat): seq<Candidate>
    requires i < |lines|
  {
    VatOnly(AnyLabel(lines, RefundMarker))(lines[i], Previous(lines, i), i)
  }

  /** A line with a VAT summary that a payment confirms. */
  predicate ConfirmedAt(lines: seq<Line>, i: nat, payments: seq<real>)
    requires i < |lines|
  {
    VatAt(lines, i) != [] && Paid(VatAt(lines, i)[0].amount, payments)
  }

  predicate FullyTrusted(lines: seq<Line>, i: nat, payments: seq<real>)
    requires i < |lines|
  {
    RoundingLine(lines[i]) || ConfirmedAt(lines, i, payments)
  }

  /** The candidate of a line that decides. */
  function Decisive(lines: seq<Line>, i: nat, payments: seq<real>): Candidate
    requires i < |lines| && (FullyTrusted(lines, i, payments) || TotalLine(lines[i]))
  {
    if ConfirmedAt(lines, i, payments) then VatAt(lines, i)[0].(confidence := 1000) else Stated(lines[i], i)
  }

  ghost predicate FromLine(lines: seq<Line>, contribution: Contribution, c: Candidate) {
    exists i :: ComesFrom(lines, contribution, i, c)
  }

  ghost predicate FromPayment(vat: seq<Candidate>, payments: seq<real>, c: Candidate) {
    exists v :: Confirms(vat, payments, v, c)
  }

  lemma InThree(a: seq<Candidate>, b: seq<Candidate>, d: seq<Candidate>, c: Candidate)
    ensures c in a + b + d <==> c in a || c in b || c in d
  {
  }

  function VatScan(lines: seq<Line>): seq<Candidate> {
    ScanTo(lines, VatOnly(AnyLabel(lines, RefundMarker)), |lines|)
  }

  /** Candidates come from the refund column, from a line, or from a confirmed VAT summary. */
  lemma CandidateSource(lines: seq<Line>, payments: seq<real>, c: Candidate)
    ensures c in AllCandidates(lines, payments) <==>
              || c in ColumnarRefund(lines, 0) || FromLine(lines, All(AnyLabel(lines, RefundMarker)), c)
              || FromPayment(VatScan(lines), payments, c)
  {
    var all := All(AnyLabel(lines, RefundMarker));
    ScanHas(lines, all, |lines|, c);
    ConfirmedHas(VatScan(lines), payments, c);
    InThree(ColumnarRefund(lines, 0), ScanTo(lines, all, |lines|), Confirmed(VatScan(lines), payments), c);
  }

  /** A candidate of the highest two confidences is the decisive one of its line. */
  ghost predicate Trusted(lines: seq<Line>, payments: seq<real>, c: Candidate) {
    && 0 <= c.line < |lines| && c.confidence <= 1000
    && (if c.confidence == 1000 then FullyTrusted(lines, c.line, payments) else TotalLine(lines[c.line]))
    && c == Decisive(lines, c.line, payments)
  }

  lemma StatedIsTrusted(lines: seq<Line>, payments: seq<real>, c: Candidate, i: int)
    requires ComesFrom(lines, All(AnyLabel(lines, RefundMarker)), i, c) && c.confidence >= 999
    ensures Trusted(lines, payments, c)
  {
  }

  lemma ComesFromWithin(lines: seq<Line>, contribution: Contribution, i: int, c: Candidate)
    requires ComesFrom(lines, contribution, i, c)
    ensures 0 <= i < |lines| && c in contribution(lines[i], Previous(lines, i), i)
  {
  }

  lemma VatSource(lines: seq<Line>, v: Candidate) returns (i: nat)
    requires v in VatScan(lines)
    ensures i < |lines| && VatAt(lines, i) == [v] && v.line == i
  {
    var marker := AnyLabel(lines, RefundMarker);
    ScanHas(lines, VatOnly(marker), |lines|, v);
    var j :| ComesFrom(lines, VatOnly(marker), j, v);
    ComesFromWithin(lines, VatOnly(marker), j, v);
    i := j;
  }

  lemma ConfirmedIsTrusted(lines: seq<Line>, payments: seq<real>, v: Candidate, c: Candidate)
    requires Confirms(VatScan(lines), payments, v, c)
    ensures Trusted(lines, payments, c)
  {
    var i := VatSource(lines, v);
    assert ConfirmedAt(lines, i, payments);
  }

  lemma TrustedCandidate(lines: seq<Line>, payments: seq<real>, c: Candidate)
    requires c in AllCandidates(lines, payments) && c.confidence >= 999
    ensures Trusted(lines, payments, c)
  {
    var all := All(AnyLabel(lines, RefundMarker));
    ColumnConfidence(lines, 0);
    CandidateSource(lines, payments, c);
    if i :| ComesFrom(lines, all, i, c) {
      StatedIsTrusted(lines, payments, c, i);
    } else {
      var v :| Confirms(VatScan(lines), payments, v, c);
      ConfirmedIsTrusted(lines, payments, v, c);
    }
  }

  lemma DecisiveIsCandidate(lines: seq<Line>, i: nat, payments: seq<real>)
    requires i < |lines| && (FullyTrusted(lines, i, payments) || TotalLine(lines[i]))
    ensures Decisive(lines, i, payments) in AllCandidates(lines, payments)
  {
    var marker, c := AnyLabel(lines, RefundMarker), Decisive(lines, i, payments);
    CandidateSource(lines, payments, c);
    if ConfirmedAt(lines, i, payments) {
      var v := VatAt(lines, i)[0];
      assert ComesFrom(lines, VatOnly(marker), i, v);
      ScanHas(lines, VatOnly(marker), |lines|, v);
      assert Confirms(VatScan(lines), payments, v, c);
    } else {
      assert ComesFrom(lines, All(marker), i, c);
    }
  }

  /**
   * The line that decides: the last one with a rounded total or a VAT summary that a payment confirms,
   * or else the last one with a total.
   */
  ghost predicate DecidingLine(lines: seq<Line>, i: nat, payments: seq<real>)
    requires i < |lines|
  {
    if exists j :: 0 <= j < |lines| && FullyTrusted(lines, j, payments)
    then FullyTrusted(lines, i, payments) && forall j :: i < j < |lines| ==> !FullyTrusted(lines, j, payments)
    else TotalLine(lines[i]) && forall j :: i < j < |lines| ==> !TotalLine(lines[j])
  }

  lemma BestIsDecisive(lines: seq<Line>, i: nat, payments: seq<real>, cs: seq<Candidate>, k: int)
    requires i < |lines| && DecidingLine(lines, i, payments) && cs == AllCandidates(lines, payments) && IsBest(cs, k)
    ensures cs[k] == Decisive(lines, i, payments)
  {
    var d := Decisive(lines, i, payments);
    DecisiveIsCandidate(lines, i, payments);
    var j :| 0 <= j < |cs| && cs[j] == d;
    assert !Better(cs[j], cs[k]) && cs[k] in cs;
    TrustedCandidate(lines, payments, cs[k]);
  }

  /**
   * The total is what the deciding line says, whatever else the text holds: the rounded total, the
   * VAT summary that was paid, or the plain total.
   */
  lemma LastTotalLineDecides(lines: seq<Line>, i: nat, payments: seq<real>)
    requires i < |lines| && DecidingLine(lines, i, payments)
    ensures var d := Decisive(lines, i, payments);
            TotalOf(lines, payments) == Total(d.amount, d.currency, d.confidence)
  {
    var cs := AllCandidates(lines, payments);
    DecisiveIsCandidate(lines, i, payments);
    ChoiceIff(cs, AnyLabel(lines, TotalLabel), TotalOf(lines, payments));
    var j :| 0 <= j < |cs| && cs[j] == Decisive(lines, i, payments);
    assert cs[j].confidence >= 999;
    var k :| IsBest(cs, k) && TotalOf(lines, payments) == Total(cs[k].amount, cs[k].currency, cs[k].confidence);
    BestIsDecisive(lines, i, payments, cs, k);
  }

  // ------------------------------------------------------------------------------------------
  // Blank lines do not matter
  // ------------------------------------------------------------------------------------------

  function ShiftedLine(line: int, k: int): int {
    if line >= k then line + 1 else line
  }

  function Shift(c: Candidate, k: int): Candidate {
    c.(line := ShiftedLine(c.line, k))
  }

  function ShiftAll(cs: seq<Candidate>, k: int): seq<Candidate> {
    seq(|cs|, j requires 0 <= j < |cs| => Shift(cs[j], k))
  }

  lemma ShiftKeepsBest(cs: seq<Candidate>, k: int, b: int)
    requires IsBest(cs, b)
    ensures IsBest(ShiftAll(cs, k), b)
  {
    var shifted := ShiftAll(cs, k);
    assert forall i, j :: 0 <= i < |cs| && 0 <= j < |cs| ==> (Better(shifted[i], shifted[j]) <==> Better(cs[i], cs[j]));
  }

  lemma ShiftKeepsChoice(cs: seq<Candidate>, k: int, hasTotalLabel: bool)
    ensures Choice(ShiftAll(cs, k), hasTotalLabel) == Choice(cs, hasTotalLabel)
  {
    var shifted := ShiftAll(cs, k);
    var t := Choice(cs, hasTotalLabel);
    ChoiceIff(cs, hasTotalLabel, t);
    assert AllBelow(shifted, 850) <==> AllBelow(cs, 850) by {
      assert forall j :: 0 <= j < |cs| ==> shifted[j].confidence == cs[j].confidence;
    }
    assert OneMagnitude(shifted) <==> OneMagnitude(cs) by {
      assert forall j :: 0 <= j < |cs| ==> shifted[j].amount == cs[j].amount;
    }
    if cs != [] && !AllBelow(cs, 850) {
      var b :| IsBest(cs, b) && t == Total(cs[b].amount, cs[b].currency, cs[b].confidence);
      ShiftKeepsBest(cs, k, b);
    }
    ChoiceIff(shifted, hasTotalLabel, t);
  }

  function WithBlank(lines: seq<Line>, k: nat): (r: seq<Line>)
    requires k <= |lines|
    ensures |r| == |lines| + 1 && r[k] == Blank
  {
    lines[..k] + [Blank] + lines[k..]
  }

  lemma LineMoves(lines: seq<Line>, k: nat, i: nat)
    requires k <= |lines| && i < |lines|
    ensures WithBlank(lines, k)[ShiftedLine(i, k)] == lines[i]
  {
  }

  lemma {:induction false} PreviousSkipsBlank(lines: seq<Line>, k: nat, i: nat)
    requires k <= |lines| && i <= |lines|
    ensures Previous(WithBlank(lines, k), ShiftedLine(i, k)) == Previous(lines, i)
    ensures i == k ==> Previous(WithBlank(lines, k), k) == Previous(lines, k)
  {
    var r := WithBlank(lines, k);
    if i > 0 {
      PreviousSkipsBlank(lines, k, i - 1);
      LineMoves(lines, k, i - 1);
    }
    if i == k {
      assert r[k] == Blank;
    }
  }

  /** The index of a line only says where its candidates are. */
  ghost predicate Shifts(contribution: Contribution, k: int) {
    && (forall line, previous, i: int :: ShiftsAt(contribution, line, previous, i, k))
    && (forall previous, i: int :: contribution(Blank, previous, i) == [])
  }

  ghost predicate ShiftsAt(contribution: Contribution, line: Line, previous: Line, i: int, k: int) {
    contribution(line, previous, ShiftedLine(i, k)) == ShiftAll(contribution(line, previous, i), k)
  }

  lemma LineShifts(line: Line, previous: Line, marker: bool, vatOnly: bool, i: int, k: int)
    ensures LineCandidates(line, previous, marker, vatOnly, ShiftedLine(i, k))
         == ShiftAll(LineCandidates(line, previous, marker, vatOnly, i), k)
  {
  }

  lemma LinesShift(marker: bool, k: int)
    ensures Shifts(All(marker), k) && Shifts(VatOnly(marker), k)
  {
    forall line, previous, i: int ensures ShiftsAt(All(marker), line, previous, i, k) {
      LineShifts(line, previous, marker, false, i, k);
    }
    forall line, previous, i: int ensures ShiftsAt(VatOnly(marker), line, previous, i, k) {
      LineShifts(line, previous, marker, true, i, k);
    }
  }

  lemma ShiftAppend(a: seq<Candidate>, b: seq<Candidate>, k: int)
    ensures ShiftAll(a + b, k) == ShiftAll(a, k) + ShiftAll(b, k)
  {
  }

  /** A line contributes to the longer text what it contributes to the shorter one. */
  lemma ContributionShifts(lines: seq<Line>, k: nat, contribution: Contribution, i: nat)
    requires k <= |lines| && i < |lines| && Shifts(contribution, k)
    ensures var r, j := WithBlank(lines, k), ShiftedLine(i, k);
            contribution(r[j], Previous(r, j), j) == ShiftAll(contribution(lines[i], Previous(lines, i), i), k)
  {
    PreviousSkipsBlank(lines, k, i);
    LineMoves(lines, k, i);
    assert ShiftsAt(contribution, lines[i], Previous(lines, i), i, k);
  }

  lemma {:induction false} ScanBeforeBlank(lines: seq<Line>, k: nat, contribution: Contribution, n: nat)
    requires n <= k <= |lines| && Shifts(contribution, k)
    ensures ScanTo(WithBlank(lines, k), contribution, n) == ShiftAll(ScanTo(lines, contribution, n), k)
  {
    if n > 0 {
      ScanBeforeBlank(lines, k, contribution, n - 1);
      ContributionShifts(lines, k, contribution, n - 1);
      ShiftAppend(ScanTo(lines, contribution, n - 1), contribution(lines[n - 1], Previous(lines, n - 1), n - 1), k);
    }
  }

  lemma {:induction false} ScanAfterBlank(lines: seq<Line>, k: nat, contribution: Contribution, n: nat)
    requires k <= n <= |lines| && Shifts(contribution, k)
    ensures ScanTo(WithBlank(lines, k), contribution, n + 1) == ShiftAll(ScanTo(lines, contribution, n), k)
  {
    if n == k {
      ScanBeforeBlank(lines, k, contribution, k);
    } else {
      ScanAfterBlank(lines, k, contribution, n - 1);
      ContributionShifts(lines, k, contribution, n - 1);
      ShiftAppend(ScanTo(lines, contribution, n - 1), contribution(lines[n - 1], Previous(lines, n - 1), n - 1), k);
    }
  }

  lemma {:induction false} ConfirmedShifts(vat: seq<Candidate>, payments: seq<real>, k: int)
    ensures Confirmed(ShiftAll(vat, k), payments) == ShiftAll(Confirmed(vat, payments), k)
  {
    if vat != [] {
      var n := |vat| - 1;
      ConfirmedShifts(vat[..n], payments, k);
      assert ShiftAll(vat, k)[..n] == ShiftAll(vat[..n], k);
    }
  }

  lemma {:induction false} NoRefundColumn(lines: seq<Line>, heading: nat)
    requires heading <= |lines| && forall i :: heading <= i < |lines| ==> !LabelsOf(lines[i]).columnarRefund
    ensures ColumnarRefund(lines, heading) == []
    decreases |lines| - heading
  {
    if heading < |lines| {
      NoRefundColumn(lines, heading + 1);
    }
  }

  lemma BlankHasNoLabels(lines: seq<Line>, k: nat, wanted: Labels -> bool)
    requires k <= |lines| && !wanted(NOTHING)
    ensures AnyLabel(WithBlank(lines, k), wanted) <==> AnyLabel(lines, wanted)
  {
    var r := WithBlank(lines, k);
    if AnyLabel(lines, wanted) {
      var i :| 0 <= i < |lines| && wanted(LabelsOf(lines[i]));
      LineMoves(lines, k, i);
    }
    if AnyLabel(r, wanted) {
      var i :| 0 <= i < |r| && wanted(LabelsOf(r[i]));
      if i != k {
        LineMoves(lines, k, if i < k then i else i - 1);
      }
    }
  }

  // ------------------------------------------------------------------------------------------
  // Blank lines and refund columns
  // ------------------------------------------------------------------------------------------

  function ShiftRow(row: Row, k: int): Row {
    row.(line := ShiftedLine(row.line, k))
  }

  function ShiftRows(rows: seq<Row>, k: int): seq<Row> {
    seq(|rows|, j requires 0 <= j < |rows| => ShiftRow(rows[j], k))
  }

  lemma ColumnShifts(rows: seq<Row>, k: int)
    ensures IsRefundColumn(ShiftRows(rows, k)) <==> IsRefundColumn(rows)
  {
  }

  lemma {:induction false} RowsWithin(lines: seq<Line>, lo: nat, hi: nat)
    requires lo <= hi <= |lines|
    ensures forall j :: 0 <= j < |Rows(lines, lo, hi)| ==> lo <= Rows(lines, lo, hi)[j].line < hi
  {
    if lo < hi {
      RowsWithin(lines, lo, hi - 1);
    }
  }

  lemma {:induction false} RowsBeforeBlank(lines: seq<Line>, k: nat, lo: nat, hi: nat)
    requires lo <= hi <= k <= |lines|
    ensures Rows(WithBlank(lines, k), lo, hi) == ShiftRows(Rows(lines, lo, hi), k)
  {
    if lo < hi {
      RowsBeforeBlank(lines, k, lo, hi - 1);
      LineMoves(lines, k, hi - 1);
    }
  }

  lemma {:induction false} RowsAcrossBlank(lines: seq<Line>, k: nat, lo: nat, hi: nat)
    requires lo <= k <= hi <= |lines|
    ensures Rows(WithBlank(lines, k), lo, hi + 1) == ShiftRows(Rows(lines, lo, hi), k)
    decreases hi
  {
    if hi == k {
      RowsBeforeBlank(lines, k, lo, k);
      assert WithBlank(lines, k)[k] == Blank;
    } else {
      RowsAcrossBlank(lines, k, lo, hi - 1);
      LineMoves(lines, k, hi - 1);
    }
  }

  lemma {:induction false} RowsAfterBlank(lines: seq<Line>, k: nat, lo: nat, hi: nat)
    requires k <= lo <= hi <= |lines|
    ensures Rows(WithBlank(lines, k), lo + 1, hi + 1) == ShiftRows(Rows(lines, lo, hi), k)
    decreases hi
  {
    if lo < hi {
      RowsAfterBlank(lines, k, lo, hi - 1);
      LineMoves(lines, k, hi - 1);
    }
  }

  /** The row with the sum of a refund column. */
  function SumRow(lines: seq<Line>, heading: nat): Row
    requires heading < |lines| && IsRefundAt(lines, heading)
  {
    Rows(lines, heading + 1, Window(lines, heading))[2]
  }

  /** The blank line pushes the sum out of the eight lines below the label. */
  predicate Spoils(lines: seq<Line>, heading: nat, k: nat)
    requires heading < |lines|
  {
    IsRefundAt(lines, heading) && heading < k <= SumRow(lines, heading).line == heading + 8
  }

  /** How far down the rows below a label stay in its window. */
  function StillSeen(lines: seq<Line>, heading: nat, k: nat): (hi: nat)
    requires heading < |lines|
    ensures heading + 1 <= hi <= Window(lines, heading)
  {
    var hi := Window(lines, heading);
    if heading < k < hi == heading + 9 then hi - 1 else hi
  }

  function WindowRows(lines: seq<Line>, heading: nat): seq<Row>
    requires heading < |lines|
  {
    Rows(lines, heading + 1, Window(lines, heading))
  }

  lemma BlankAboveWindow(lines: seq<Line>, heading: nat, k: nat)
    requires heading < |lines| && k <= |lines| && k <= heading
    ensures WindowRows(WithBlank(lines, k), ShiftedLine(heading, k))
         == ShiftRows(Rows(lines, heading + 1, StillSeen(lines, heading, k)), k)
  {
    RowsAfterBlank(lines, k, heading + 1, Window(lines, heading));
  }

  lemma BlankBelowWindow(lines: seq<Line>, heading: nat, k: nat)
    requires heading < |lines| && k <= |lines| && Window(lines, heading) == heading + 9 <= k
    ensures WindowRows(WithBlank(lines, k), ShiftedLine(heading, k))
         == ShiftRows(Rows(lines, heading + 1, StillSeen(lines, heading, k)), k)
  {
    RowsBeforeBlank(lines, k, heading + 1, heading + 9);
  }

  lemma BlankInShortWindow(lines: seq<Line>, heading: nat, k: nat)
    requires heading < |lines| && k <= |lines| && heading < k && Window(lines, heading) < heading + 9
    ensures WindowRows(WithBlank(lines, k), ShiftedLine(heading, k))
         == ShiftRows(Rows(lines, heading + 1, StillSeen(lines, heading, k)), k)
  {
    RowsAcrossBlank(lines, k, heading + 1, Window(lines, heading));
  }

  lemma BlankInFullWindow(lines: seq<Line>, heading: nat, k: nat)
    requires heading < |lines| && k <= |lines| && heading < k < Window(lines, heading) == heading + 9
    ensures WindowRows(WithBlank(lines, k), ShiftedLine(heading, k))
         == ShiftRows(Rows(lines, heading + 1, StillSeen(lines, heading, k)), k)
  {
    RowsAcrossBlank(lines, k, heading + 1, heading + 8);
  }

  /** The rows in the window below a label, wherever the blank line is. */
  lemma WindowWithBlank(lines: seq<Line>, heading: nat, k: nat)
    requires heading < |lines| && k <= |lines|
    ensures WindowRows(WithBlank(lines, k), ShiftedLine(heading, k))
         == ShiftRows(Rows(lines, heading + 1, StillSeen(lines, heading, k)), k)
  {
    if k <= heading {
      BlankAboveWindow(lines, heading, k);
    } else if Window(lines, heading) < heading + 9 {
      BlankInShortWindow(lines, heading, k);
    } else if k < heading + 9 {
      BlankInFullWindow(lines, heading, k);
    } else {
      BlankBelowWindow(lines, heading, k);
    }
  }

  lemma LastRowOfWindow(lines: seq<Line>, lo: nat, hi: nat)
    requires lo < hi <= |lines|
    ensures var all, init := Rows(lines, lo, hi), Rows(lines, lo, hi - 1);
            && (all == init || (|all| == |init| + 1 && all[..|init|] == init && all[|init|].line == hi - 1))
            && forall j :: 0 <= j < |init| ==> init[j].line < hi - 1
  {
    RowsWithin(lines, lo, hi - 1);
  }

  /**
   * A blank line takes a refund column away if and only if it stands between the label and the sum, and
   * the sum was in the last of the eight lines; it never makes one.
   */
  lemma RefundKeptIff(lines: seq<Line>, heading: nat, k: nat)
    requires heading < |lines| && k <= |lines|
    ensures var r, h := WithBlank(lines, k), ShiftedLine(heading, k);
            && (IsRefundAt(r, h) <==> IsRefundAt(lines, heading) && !Spoils(lines, heading, k))
            && (IsRefundAt(r, h) ==> SumRow(r, h) == ShiftRow(SumRow(lines, heading), k))
  {
    var hi := Window(lines, heading);
    var rows := Rows(lines, heading + 1, hi);
    LineMoves(lines, k, heading);
    WindowWithBlank(lines, heading, k);
    RowsWithin(lines, heading + 1, hi);
    if heading < k < hi == heading + 9 {
      var init := Rows(lines, heading + 1, hi - 1);
      LastRowOfWindow(lines, heading + 1, hi);
      ColumnShifts(init, k);
      assert IsRefundColumn(init) ==> rows[..3] == init[..3];
    } else {
      ColumnShifts(rows, k);
    }
  }

  /** The refund of the first label that a blank line at `k` does not spoil. */
  function UnspoiledRefund(lines: seq<Line>, k: nat, heading: nat): seq<Candidate>
    requires heading <= |lines|
    decreases |lines| - heading
  {
    if heading == |lines| then []
    else if IsRefundAt(lines, heading) && !Spoils(lines, heading, k) then
      var row := SumRow(lines, heading);
      [From(row.found, row.found.value, 998, row.line)]
    else UnspoiledRefund(lines, k, heading + 1)
  }

  lemma {:induction false} RefundAfterBlank(lines: seq<Line>, k: nat, heading: nat)
    requires k <= heading <= |lines|
    ensures ColumnarRefund(WithBlank(lines, k), heading + 1) == ShiftAll(UnspoiledRefund(lines, k, heading), k)
    decreases |lines| - heading
  {
    if heading < |lines| {
      RefundAfterBlank(lines, k, heading + 1);
      RefundKeptIff(lines, heading, k);
    }
  }

  lemma {:induction false} RefundBeforeBlank(lines: seq<Line>, k: nat, heading: nat)
    requires heading <= k <= |lines|
    ensures ColumnarRefund(WithBlank(lines, k), heading) == ShiftAll(UnspoiledRefund(lines, k, heading), k)
    decreases |lines| - heading
  {
    if heading == k {
      RefundAfterBlank(lines, k, k);
      assert LabelsOf(WithBlank(lines, k)[k]) == NOTHING;
    } else {
      RefundBeforeBlank(lines, k, heading + 1);
      RefundKeptIff(lines, heading, k);
    }
  }

  /** The first label with a refund column; behind the last line if there is none. */
  function RefundLabel(lines: seq<Line>, heading: nat): (h: nat)
    requires heading <= |lines|
    ensures heading <= h <= |lines| && (h < |lines| ==> IsRefundAt(lines, h))
    ensures forall j :: heading <= j < h ==> !IsRefundAt(lines, j)
    decreases |lines| - heading
  {
    if heading == |lines| || IsRefundAt(lines, heading) then heading else RefundLabel(lines, heading + 1)
  }

  lemma {:induction false} SameRefundIf(lines: seq<Line>, k: nat, heading: nat)
    requires heading <= |lines|
    requires var h := RefundLabel(lines, heading); h < |lines| ==> !Spoils(lines, h, k)
    ensures UnspoiledRefund(lines, k, heading) == ColumnarRefund(lines, heading)
    decreases |lines| - heading
  {
    if heading < |lines| && !IsRefundAt(lines, heading) {
      SameRefundIf(lines, k, heading + 1);
    }
  }

  /** A line of the longer text is a label with a refund column only if it was one. */
  lemma NoNewRefund(lines: seq<Line>, k: nat, h: nat, j: nat)
    requires k <= |lines| && h < |lines| && j < ShiftedLine(h, k)
    requires forall i: nat :: i < h ==> !IsRefundAt(lines, i)
    ensures !IsRefundAt(WithBlank(lines, k), j)
  {
    if j == k {
      assert LabelsOf(WithBlank(lines, k)[k]) == NOTHING;
    } else {
      RefundKeptIff(lines, if j < k then j else j - 1, k);
    }
  }

  /** The same label is found, on its new line, exactly if the blank line does not spoil its column. */
  lemma RefundLabelKeptIff(lines: seq<Line>, k: nat)
    requires k <= |lines| && RefundLabel(lines, 0) < |lines|
    ensures var h := RefundLabel(lines, 0);
            RefundLabel(WithBlank(lines, k), 0) == ShiftedLine(h, k) <==> !Spoils(lines, h, k)
  {
    var h := RefundLabel(lines, 0);
    RefundKeptIff(lines, h, k);
    forall j: nat | j < ShiftedLine(h, k) ensures !IsRefundAt(WithBlank(lines, k), j) {
      NoNewRefund(lines, k, h, j);
    }
  }

  /** The scan and the confirmed VAT totals, without a refund column. */
  function Scanned(lines: seq<Line>, marker: bool, payments: seq<real>): seq<Candidate> {
    ScanTo(lines, All(marker), |lines|) + Confirmed(ScanTo(lines, VatOnly(marker), |lines|), payments)
  }

  lemma AllIsScanned(lines: seq<Line>, payments: seq<real>)
    ensures AllCandidates(lines, payments)
         == ColumnarRefund(lines, 0) + Scanned(lines, AnyLabel(lines, RefundMarker), payments)
  {
    var marker := AnyLabel(lines, RefundMarker);
    var scan, vat := ScanTo(lines, All(marker), |lines|), ScanTo(lines, VatOnly(marker), |lines|);
    var refund, confirmed := ColumnarRefund(lines, 0), Confirmed(vat, payments);
    assert refund + scan + confirmed == refund + (scan + confirmed);
  }

  lemma ScannedShifts(lines: seq<Line>, k: nat, marker: bool, payments: seq<real>)
    requires k <= |lines|
    ensures Scanned(WithBlank(lines, k), marker, payments) == ShiftAll(Scanned(lines, marker, payments), k)
  {
    LinesShift(marker, k);
    ScanAfterBlank(lines, k, All(marker), |lines|);
    ScanAfterBlank(lines, k, VatOnly(marker), |lines|);
    var vat := ScanTo(lines, VatOnly(marker), |lines|);
    ConfirmedShifts(vat, payments, k);
    ShiftAppend(ScanTo(lines, All(marker), |lines|), Confirmed(vat, payments), k);
  }

  /** What a blank line does to any text: it chooses as before, without the refund columns that are spoiled. */
  lemma TotalWithBlank(lines: seq<Line>, k: nat, payments: seq<real>)
    requires k <= |lines|
    ensures TotalOf(WithBlank(lines, k), payments)
         == Choice(UnspoiledRefund(lines, k, 0) + Scanned(lines, AnyLabel(lines, RefundMarker), payments),
                   AnyLabel(lines, TotalLabel))
  {
    BlankHasNoLabels(lines, k, TotalLabel);
    BlankHasNoLabels(lines, k, RefundMarker);
    AllIsScanned(WithBlank(lines, k), payments);
    var marker := AnyLabel(lines, RefundMarker);
    ScannedShifts(lines, k, marker, payments);
    RefundBeforeBlank(lines, k, 0);
    var refund, scanned := UnspoiledRefund(lines, k, 0), Scanned(lines, marker, payments);
    ShiftAppend(refund, scanned, k);
    ShiftKeepsChoice(refund + scanned, k, AnyLabel(lines, TotalLabel));
  }

  /** A blank line leaves the total as it is, unless it spoils the refund column that was found. */
  lemma BlankLinesDoNotMatter(lines: seq<Line>, k: nat, payments: seq<real>)
    requires k <= |lines|
    requires var h := RefundLabel(lines, 0); h < |lines| ==> !Spoils(lines, h, k)
    ensures TotalOf(WithBlank(lines, k), payments) == TotalOf(lines, payments)
  {
    TotalWithBlank(lines, k, payments);
    SameRefundIf(lines, k, 0);
    AllIsScanned(lines, payments);
  }

  const HEADING := Written([], NOTHING.(total := true, columnarRefund := true))

  function RefundLine(amount: real): Line {
    var f := Found(amount, None, 0);
    Written([f], NOTHING.(column := Some(f)))
  }

  lemma {:induction false} RowsOfBlanks(lines: seq<Line>, lo: nat, hi: nat)
    requires lo <= hi <= |lines| && forall i :: lo <= i < hi ==> lines[i].Blank?
    ensures Rows(lines, lo, hi) == []
  {
    if lo < hi {
      RowsOfBlanks(lines, lo, hi - 1);
    }
  }

  function ColumnBelow(blanks: nat): seq<Line> {
    [HEADING] + seq(blanks, _ => Blank) + [RefundLine(-1.0), RefundLine(-2.0), RefundLine(-3.0)]
  }

  lemma ColumnRows(blanks: nat)
    ensures var lines, n := ColumnBelow(blanks), blanks + 1;
            && |lines| == n + 3 && lines[0] == HEADING && Rows(lines, 1, n + 1) == [Row(Found(-1.0, None, 0), n)]
            && Rows(lines, 1, n + 2) == [Row(Found(-1.0, None, 0), n), Row(Found(-2.0, None, 0), n + 1)]
            && Rows(lines, 1, n + 3) == Rows(lines, 1, n + 2) + [Row(Found(-3.0, None, 0), n + 2)]
  {
    var lines, n := ColumnBelow(blanks), blanks + 1;
    assert forall i :: 1 <= i < n ==> lines[i] == Blank;
    RowsOfBlanks(lines, 1, n);
    assert lines[n] == RefundLine(-1.0) && lines[n + 1] == RefundLine(-2.0) && lines[n + 2] == RefundLine(-3.0);
  }

  lemma ColumnFound(blanks: nat)
    requires blanks <= 5
    ensures ColumnarRefund(ColumnBelow(blanks), 0) == [Candidate(-3.0, None, 998, blanks + 3, 0)]
  {
    var lines := ColumnBelow(blanks);
    ColumnRows(blanks);
    assert Window(lines, 0) == blanks + 4;
    assert IsRefundAt(lines, 0);
  }

  lemma ColumnHidden(blanks: nat)
    requires blanks >= 6
    ensures ColumnarRefund(ColumnBelow(blanks), 0) == []
  {
    var lines := ColumnBelow(blanks);
    ColumnRows(blanks);
    RowsGrow(lines, 1, 9, blanks + 3);
    assert !IsRefundAt(lines, 0);
    assert forall i :: 1 <= i < |lines| ==> !LabelsOf(lines[i]).columnarRefund;
    NoRefundColumn(lines, 1);
  }

  lemma {:induction false} NothingConfirmed(vat: seq<Candidate>)
    ensures Confirmed(vat, []) == []
  {
    if vat != [] {
      NothingConfirmed(vat[..|vat| - 1]);
    }
  }

  lemma ColumnBelowAt(blanks: nat, i: nat)
    requires i <= blanks
    ensures ColumnBelow(blanks)[i] == if i == 0 then HEADING else Blank
  {
  }

  lemma {:induction false} ScanBlanks(blanks: nat, lines: seq<Line>, contribution: Contribution, n: nat)
    requires lines == ColumnBelow(blanks) && n <= blanks
    requires forall previous, i: int :: contribution(Blank, previous, i) == []
    requires contribution(HEADING, Blank, 0) == []
    ensures ScanTo(lines, contribution, n + 1) == [] && Previous(lines, n + 1) == HEADING
  {
    ColumnBelowAt(blanks, n);
    if n > 0 {
      ScanBlanks(blanks, lines, contribution, n - 1);
    }
  }

  function RefundCandidate(amount: real, line: int): Candidate {
    Candidate(amount, None, 550, line, 0)
  }

  lemma ColumnScan(blanks: nat, contribution: Contribution)
    requires forall previous, i: int :: contribution(Blank, previous, i) == []
    requires contribution(HEADING, Blank, 0) == []
    ensures var lines, n := ColumnBelow(blanks), blanks + 1;
            ScanTo(lines, contribution, n + 3)
            == contribution(RefundLine(-1.0), HEADING, n) + contribution(RefundLine(-2.0), RefundLine(-1.0), n + 1)
               + contribution(RefundLine(-3.0), RefundLine(-2.0), n + 2)
  {
    var lines, n := ColumnBelow(blanks), blanks + 1;
    ScanBlanks(blanks, lines, contribution, blanks);
    assert lines[n] == RefundLine(-1.0) && lines[n + 1] == RefundLine(-2.0) && lines[n + 2] == RefundLine(-3.0);
    assert Previous(lines, n + 1) == lines[n] && Previous(lines, n + 2) == lines[n + 1];
    assert ScanTo(lines, contribution, n + 1) == contribution(lines[n], HEADING, n);
    assert ScanTo(lines, contribution, n + 2) == ScanTo(lines, contribution, n + 1)
        + contribution(lines[n + 1], lines[n], n + 1);
  }

  function ThreeRefunds(n: int): seq<Candidate> {
    [RefundCandidate(-1.0, n), RefundCandidate(-2.0, n + 1), RefundCandidate(-3.0, n + 2)]
  }

  lemma ColumnScanned(blanks: nat)
    ensures Scanned(ColumnBelow(blanks), true, []) == ThreeRefunds(blanks + 1)
  {
    assert |ColumnBelow(blanks)| == blanks + 4;
    ColumnScan(blanks, All(true));
    ColumnScan(blanks, VatOnly(true));
    NothingConfirmed([]);
  }

  lemma ThreeCandidates(n: int)
    ensures Choice(ThreeRefunds(n), true) == NoTotal
    ensures Choice([Candidate(-3.0, None, 998, n + 2, 0)] + ThreeRefunds(n), true) == Total(-3.0, None, 998)
  {
    var cs, best := ThreeRefunds(n), Candidate(-3.0, None, 998, n + 2, 0);
    assert HalfEven(Abs(cs[0].amount)) == 100 && HalfEven(Abs(cs[1].amount)) == 200;
    ChoiceIff(cs, true, NoTotal);
    var all := [best] + cs;
    assert all[0] == best && IsBest(all, 0);
    ChoiceIff(all, true, Total(-3.0, None, 998));
  }

  lemma ColumnTotal(blanks: nat)
    ensures TotalOf(ColumnBelow(blanks), [])
         == Choice(ColumnarRefund(ColumnBelow(blanks), 0) + ThreeRefunds(blanks + 1), true)
  {
    var lines := ColumnBelow(blanks);
    assert lines[0] == HEADING && TotalLabel(LabelsOf(lines[0])) && RefundMarker(LabelsOf(lines[0]));
    ColumnScanned(blanks);
    AllIsScanned(lines, []);
  }

  /** The sixth blank line takes the total of this text away. */
  lemma BlankLineHidesTotal()
    ensures TotalOf(ColumnBelow(5), []) == Total(-3.0, None, 998) && TotalOf(ColumnBelow(6), []) == NoTotal
  {
    ColumnFound(5);
    ColumnHidden(6);
    ColumnTotal(5);
    ColumnTotal(6);
    ThreeCandidates(6);
    ThreeCandidates(7);
    assert [] + ThreeRefunds(7) == ThreeRefunds(7);
  }

  // ------------------------------------------------------------------------------------------
  // Negative totals
  // ------------------------------------------------------------------------------------------

  predicate PlainLine(line: Line) {
    && !LabelsOf(line).refund
    && (LabelsOf(line).column.Some? ==> LabelsOf(line).column.value.value >= 0.0)
    && (line.Written? ==> forall a :: a in line.amounts ==> a.value >= 0.0)
  }

  predicate NoneNegative(cs: seq<Candidate>) {
    forall c :: c in cs ==> c.amount >= 0.0
  }

  lemma VatNeverNegative(amounts: seq<Found>, previous: Labels, labels: Labels)
    ensures var r := VatSummaryTotal(amounts, previous, labels); r.Some? ==> r.value.amount >= 0.0
  {
  }

  lemma LineNeverNegative(line: Line, previous: Line, marker: bool, vatOnly: bool, index: int)
    requires PlainLine(line)
    ensures NoneNegative(LineCandidates(line, previous, marker, vatOnly, index))
  {
    if line.Written? && line.amounts != [] {
      VatNeverNegative(line.amounts, LabelsOf(previous), line.labels);
      assert line.amounts[|line.amounts| - 1] in line.amounts && line.amounts[0] in line.amounts;
      assert LastNegative(line.amounts).None?;
    }
  }

  lemma {:induction false} ScanNeverNegative(lines: seq<Line>, marker: bool, n: nat)
    requires n <= |lines| && forall i :: 0 <= i < |lines| ==> PlainLine(lines[i])
    ensures NoneNegative(ScanTo(lines, All(marker), n)) && NoneNegative(ScanTo(lines, VatOnly(marker), n))
  {
    if n > 0 {
      ScanNeverNegative(lines, marker, n - 1);
      LineNeverNegative(lines[n - 1], Previous(lines, n - 1), marker, false, n - 1);
      LineNeverNegative(lines[n - 1], Previous(lines, n - 1), marker, true, n - 1);
    }
  }

  lemma {:induction false} ConfirmedNeverNegative(vat: seq<Candidate>, payments: seq<real>)
    requires NoneNegative(vat)
    ensures NoneNegative(Confirmed(vat, payments))
  {
    if vat != [] {
      assert vat[|vat| - 1] in vat;
      ConfirmedNeverNegative(vat[..|vat| - 1], payments);
    }
  }

  lemma {:induction false} NoRefundFromPlainLines(lines: seq<Line>, heading: nat)
    requires heading <= |lines| && forall i :: 0 <= i < |lines| ==> PlainLine(lines[i])
    ensures ColumnarRefund(lines, heading) == []
    decreases |lines| - heading
  {
    if heading < |lines| {
      NoRefundFromPlainLines(lines, heading + 1);
      RowsArePlain(lines, heading + 1, Window(lines, heading));
    }
  }

  lemma {:induction false} RowsArePlain(lines: seq<Line>, lo: nat, hi: nat)
    requires lo <= hi <= |lines| && forall i :: 0 <= i < |lines| ==> PlainLine(lines[i])
    ensures forall k :: 0 <= k < |Rows(lines, lo, hi)| ==> Rows(lines, lo, hi)[k].found.value >= 0.0
  {
    if lo < hi {
      RowsArePlain(lines, lo, hi - 1);
      assert PlainLine(lines[hi - 1]);
    }
  }

  /** A total is negative only if the text has a refund label or a negative amount. */
  lemma NegativeTotalIsSigned(lines: seq<Line>, payments: seq<real>)
    ensures var t := TotalOf(lines, payments);
            t.Total? && t.amount < 0.0 ==> exists i :: 0 <= i < |lines| && !PlainLine(lines[i])
  {
    if forall i :: 0 <= i < |lines| ==> PlainLine(lines[i]) {
      var marker := AnyLabel(lines, RefundMarker);
      NoRefundFromPlainLines(lines, 0);
      ScanNeverNegative(lines, marker, |lines|);
      ConfirmedNeverNegative(ScanTo(lines, VatOnly(marker), |lines|), payments);
      var cs := AllCandidates(lines, payments);
      assert NoneNegative(cs);
      ChoiceIff(cs, AnyLabel(lines, TotalLabel), TotalOf(lines, payments));
      assert cs != [] ==> cs[|cs| - 1] in cs;
    }
  }
}
