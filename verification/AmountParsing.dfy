/**
 * The five parsers that read a money amount from text, and the notations they are meant to read.
 *
 * A parsed amount is exact: `Dec(m, s)` stands for m / 10^s. The notations of Python's `float` that
 * are not plain decimals (exponents, underscores, infinities) are not modelled.
 */
module AmountParsing {
  import opened Text
  import opened Numbers

  datatype Dec = Dec(mantissa: int, scale: nat)

  // ------------------------------------------------------------------------------------------
  // Shared text operations
  // ------------------------------------------------------------------------------------------

  /** The last position of a character, or -1. */
  function LastIndex(s: string, c: char): (i: int)
    ensures -1 <= i < |s| && (i >= 0 <==> c in s)
    ensures i >= 0 ==> s[i] == c
    ensures forall j :: i < j < |s| ==> s[j] != c
  {
    if s == [] then -1
    else if s[|s| - 1] == c then |s| - 1
    else LastIndex(s[..|s| - 1], c)
  }

  function Count(s: string, c: char): (n: nat)
    ensures n > 0 <==> c in s
  {
    if s == [] then 0 else (if s[0] == c then 1 else 0) + Count(s[1..], c)
  }

  predicate IsAmountChar(c: char) {
    IsDigit(c) || c == ',' || c == '.' || c == '-'
  }

  /** Drop every character but digits, commas, points and minus signs. */
  function Keep(s: string): (r: string)
    ensures forall i :: 0 <= i < |r| ==> IsAmountChar(r[i])
    ensures (forall i :: 0 <= i < |s| ==> IsAmountChar(s[i])) ==> r == s
  {
    if s == [] then [] else (if IsAmountChar(s[0]) then [s[0]] else []) + Keep(s[1..])
  }

  /** `"".join(parts[:-1]) + "." + parts[-1]` for the parts between the separators. */
  function PointAtLast(s: string, c: char): string
    requires c in s
  {
    var i := LastIndex(s, c);
    Remove(s[..i], c) + "." + s[i + 1..]
  }

  /** With both separators present the later one is the decimal point. */
  function LaterIsPoint(s: string): string {
    if LastIndex(s, ',') > LastIndex(s, '.') then Replace(Remove(s, '.'), ',', ".") else Remove(s, ',')
  }

  /** A plain decimal: an optional minus, digits and at most one point. */
  function DecimalOf(s: string): Option<Dec> {
    if s != [] && s[0] == '-' then Negated(UnsignedOf(s[1..])) else UnsignedOf(s)
  }

  function UnsignedOf(s: string): Option<Dec> {
    var i := LastIndex(s, '.');
    var digits := if i < 0 then s else s[..i] + s[i + 1..];
    if digits == [] || !AllDigits(digits) then None
    else Some(Dec(DecimalValue(digits), if i < 0 then 0 else |s| - 1 - i))
  }

  function Negated(d: Option<Dec>): Option<Dec> {
    match d
    case None => None
    case Some(v) => Some(Dec(-v.mantissa, v.scale))
  }

  /** `-abs(x)`. */
  function Lowered(d: Option<Dec>): Option<Dec> {
    if d.Some? && d.value.mantissa > 0 then Negated(d) else d
  }

  // ------------------------------------------------------------------------------------------
  // The parsers
  // ------------------------------------------------------------------------------------------

  predicate NoNumber(s: string) {
    |s| == 0 || (|s| == 1 && (s[0] == '-' || s[0] == '.' || s[0] == ','))
  }

  /** `_parse_number` of the statement importer, on text. */
  function LedgerNumber(value: string): Option<Dec> {
    var text := Strip(value);
    var negative := text != [] && text[0] == '(' && text[|text| - 1] == ')';
    if negative then Lowered(LedgerKept(Keep(text))) else LedgerKept(Keep(text))
  }

  function LedgerKept(kept: string): Option<Dec> {
    if NoNumber(kept) then None
    else if ',' in kept && '.' in kept then DecimalOf(LaterIsPoint(kept))
    else if ',' in kept then
      DecimalOf(if |kept| - 1 - LastIndex(kept, ',') <= 2 then PointAtLast(kept, ',') else Remove(kept, ','))
    else DecimalOf(if Count(kept, '.') > 1 then PointAtLast(kept, '.') else kept)
  }

  /** `_parse_amount` of the duplicate detector. */
  function DetectorAmount(value: string): Option<Dec> {
    DetectorKept(Keep(Strip(value)))
  }

  function DetectorKept(kept: string): Option<Dec> {
    if NoNumber(kept) then None
    else if ',' in kept && '.' in kept then DecimalOf(LaterIsPoint(kept))
    else if ',' in kept then DecimalOf(PointAtLast(kept, ','))
    else DecimalOf(if Count(kept, '.') > 1 then PointAtLast(kept, '.') else kept)
  }

  function CommaOrBoth(text: string): string {
    if ',' in text && '.' in text then LaterIsPoint(text) else Replace(text, ',', ".")
  }

  /** `_parse_amount` of the bank transaction importer. */
  function ImporterAmount(value: string): Option<Dec> {
    var text := Remove(Remove(Strip(value), '\U{20AC}'), ' ');
    if text == "" then None else DecimalOf(CommaOrBoth(text))
  }

  /** `_parse_amount` of the field extractor. */
  function ExtractorAmount(value: string): Option<Dec> {
    if value == "" then None else DecimalOf(CommaOrBoth(Remove(Strip(value), ' ')))
  }

  /** The amount of a pattern match, whose sign is matched apart from its digits. */
  function AmountFromMatch(minus: bool, amount: string): Option<Dec> {
    if minus then Lowered(ExtractorAmount(amount)) else ExtractorAmount(amount)
  }

  /** The OCR processor hands back text that it cannot read. */
  datatype OcrAmount = NoAmount | Amount(value: Dec) | Unread(text: string)

  function OcrNumber(value: string): OcrAmount {
    var kept := Keep(value);
    if kept == "" then NoAmount
    else
      var plain :=
        if ',' in kept && '.' in kept then LaterIsPoint(kept)
        else if ',' in kept then Replace(Remove(kept, '.'), ',', ".")
        else if Count(kept, '.') > 1 then Remove(kept, '.')
        else kept;
      match DecimalOf(plain)
      case None => Unread(value)
      case Some(d) => Amount(d)
  }

  // ------------------------------------------------------------------------------------------
  // The printer
  // ------------------------------------------------------------------------------------------

  datatype Style = European | American {
    function Point(): char { if European? then ',' else '.' }
    function Separator(): char { if European? then '.' else ',' }
  }

  /** Groups of three digits from the right. */
  function Group(digits: string, separator: char): string {
    if |digits| <= 3 then digits
    else Group(digits[..|digits| - 3], separator) + [separator] + digits[|digits| - 3..]
  }

  function PrintWhole(n: nat, style: Style, grouped: bool): string {
    if grouped then Group(Decimal(n), style.Separator()) else Decimal(n)
  }

  function Two(n: nat): (s: string)
    requires n < 100
    ensures |s| == 2 && AllDigits(s)
  {
    [DigitChar(n / 10), DigitChar(n % 10)]
  }

  function Sign(cents: int): string {
    if cents < 0 then "-" else ""
  }

  function PrintUnsigned(cents: nat, style: Style, grouped: bool): string {
    PrintWhole(cents / 100, style, grouped) + [style.Point()] + Two(cents % 100)
  }

  function Print(cents: int, style: Style, grouped: bool): string {
    Sign(cents) + PrintUnsigned(Magnitude(cents), style, grouped)
  }

  // ------------------------------------------------------------------------------------------
  // Lemmas about the text operations
  // ------------------------------------------------------------------------------------------

  lemma {:induction false} ReplaceConcat(a: string, b: string, c: char, sub: string)
    ensures Replace(a + b, c, sub) == Replace(a, c, sub) + Replace(b, c, sub)
  {
    if a == [] {
      assert a + b == b;
    } else {
      assert (a + b)[1..] == a[1..] + b;
      ReplaceConcat(a[1..], b, c, sub);
    }
  }

  lemma ReplaceAbsent(s: string, c: char, sub: string)
    requires c !in s
    ensures Replace(s, c, sub) == s
  {
  }

  /** Removing the separators undoes the grouping. */
  lemma {:induction false} Ungroup(digits: string, separator: char)
    requires AllDigits(digits) && !IsDigit(separator)
    ensures Remove(Group(digits, separator), separator) == digits
  {
    if |digits| <= 3 {
      ReplaceAbsent(digits, separator, []);
    } else {
      var front, back := digits[..|digits| - 3], digits[|digits| - 3..];
      Ungroup(front, separator);
      RemoveBetween(Group(front, separator), separator, back);
      assert digits == front + back;
    }
  }

  lemma RemoveBetween(front: string, c: char, back: string)
    requires c !in back
    ensures Remove(front + [c] + back, c) == Remove(front, c) + back
  {
    ReplaceConcat(front + [c], back, c, []);
    ReplaceConcat(front, [c], c, []);
    ReplaceAbsent(back, c, []);
  }

  predicate Over(s: string, separator: char) {
    forall i :: 0 <= i < |s| ==> IsDigit(s[i]) || s[i] == separator
  }

  lemma {:induction false} GroupShape(digits: string, separator: char)
    requires AllDigits(digits)
    ensures Over(Group(digits, separator), separator) && |Group(digits, separator)| >= |digits|
  {
    if |digits| > 3 {
      GroupShape(digits[..|digits| - 3], separator);
    }
  }

  lemma LastIndexIs(s: string, c: char, i: nat)
    requires i < |s| && s[i] == c && forall j :: i < j < |s| ==> s[j] != c
    ensures LastIndex(s, c) == i
  {
  }

  lemma {:induction false} DecimalLength(n: nat)
    ensures |Decimal(n)| > 3 <==> n >= 1000
  {
    if n >= 10 {
      assert |Decimal(n)| == |Decimal(n / 10)| + 1;
      if n >= 100 {
        assert |Decimal(n / 10)| == |Decimal(n / 10 / 10)| + 1;
        if n >= 1000 {
          assert |Decimal(n / 10 / 10)| == |Decimal(n / 10 / 10 / 10)| + 1;
        }
      }
    }
  }

  // ------------------------------------------------------------------------------------------
  // Printing, then parsing
  // ------------------------------------------------------------------------------------------

  function PlainHead(cents: int): string {
    Sign(cents) + Decimal(Magnitude(cents) / 100)
  }

  /** What every parser hands to the decimal constructor. */
  function Plain(cents: int): string {
    PlainHead(cents) + "." + Two(Magnitude(cents) % 100)
  }

  lemma TwoMoreDigits(d: string, r: nat)
    requires AllDigits(d) && r < 100
    ensures DecimalValue(d + Two(r)) == 100 * DecimalValue(d) + r
  {
    var s := d + Two(r);
    assert s[..|s| - 1] == d + [DigitChar(r / 10)];
    assert (d + [DigitChar(r / 10)])[..|d|] == d;
  }

  lemma CutAtPoint(whole: string, fraction: string)
    requires '.' !in fraction
    ensures var body := whole + "." + fraction;
            LastIndex(body, '.') == |whole| && body[..|whole|] == whole && body[|whole| + 1..] == fraction
  {
    LastIndexIs(whole + "." + fraction, '.', |whole|);
  }

  lemma UnsignedParts(whole: string, fraction: string)
    requires whole != [] && AllDigits(whole) && AllDigits(fraction)
    ensures AllDigits(whole + fraction)
    ensures UnsignedOf(whole + "." + fraction) == Some(Dec(DecimalValue(whole + fraction), |fraction|))
  {
    CutAtPoint(whole, fraction);
  }

  lemma WholeAndTwo(q: nat, r: nat)
    requires r < 100
    ensures UnsignedOf(Decimal(q) + "." + Two(r)) == Some(Dec(100 * q + r, 2))
  {
    DecimalRoundTrip(q);
    TwoMoreDigits(Decimal(q), r);
    UnsignedParts(Decimal(q), Two(r));
  }

  lemma MinusIsRead(s: string, body: string)
    requires s != [] && s[0] == '-' && s[1..] == body
    ensures DecimalOf(s) == Negated(UnsignedOf(body))
  {
  }

  lemma DigitIsRead(body: string)
    requires body != [] && IsDigit(body[0])
    ensures DecimalOf(body) == UnsignedOf(body)
  {
  }

  lemma SignIsRead(cents: int, s: string, body: string)
    requires UnsignedOf(body) == Some(Dec(Magnitude(cents), 2)) && body != [] && IsDigit(body[0])
    requires if cents < 0 then s != [] && s[0] == '-' && s[1..] == body else s == body
    ensures DecimalOf(s) == Some(Dec(cents, 2))
  {
    if cents < 0 {
      MinusIsRead(s, body);
    } else {
      DigitIsRead(body);
    }
  }

  lemma PlainIsRead(cents: int)
    ensures DecimalOf(Plain(cents)) == Some(Dec(cents, 2))
  {
    var q, r := Magnitude(cents) / 100, Magnitude(cents) % 100;
    var whole, two := Decimal(q), Two(r);
    WholeAndTwo(q, r);
    PlainSplits(cents, whole, two, whole + "." + two);
    SignIsRead(cents, Plain(cents), whole + "." + two);
  }

  lemma PlainSplits(cents: int, whole: string, two: string, body: string)
    requires whole == Decimal(Magnitude(cents) / 100) && two == Two(Magnitude(cents) % 100) && body == whole + "." + two
    ensures body != [] && IsDigit(body[0])
    ensures if cents < 0 then Plain(cents) != [] && Plain(cents)[0] == '-' && Plain(cents)[1..] == body
            else Plain(cents) == body
  {
    assert Plain(cents) == Sign(cents) + whole + "." + two;
    assert body[0] == whole[0];
    if cents < 0 {
      assert ("-" + whole + "." + two)[1..] == body;
    } else {
      assert "" + whole + "." + two == body;
    }
  }

  predicate Separators(point: char, separator: char) {
    (point == ',' && separator == '.') || (point == '.' && separator == ',')
  }

  /** A printed amount is a head without point, the point and two digits. */
  predicate Shape(t: string, head: string, point: char, separator: char, two: string) {
    && t == head + [point] + two && |two| == 2 && AllDigits(two)
    && Separators(point, separator)
    && head != [] && IsDigit(head[|head| - 1])
    && (forall i :: 0 <= i < |head| ==> IsDigit(head[i]) || head[i] == separator || head[i] == '-')
  }

  lemma ShapeKept(t: string, head: string, point: char, separator: char, two: string)
    requires Shape(t, head, point, separator, two)
    ensures Keep(t) == t && !NoNumber(t)
  {
    assert forall i :: 0 <= i < |t| ==> IsAmountChar(t[i]);
  }

  lemma ShapePoint(t: string, head: string, point: char, separator: char, two: string)
    requires Shape(t, head, point, separator, two)
    ensures point in t && (separator in t <==> separator in head)
    ensures LastIndex(t, point) == |t| - 3 && LastIndex(t, separator) < |t| - 3
  {
    assert t[|head|] == point;
    LastIndexIs(t, point, |head|);
  }

  lemma ShapeReplaced(t: string, head: string, point: char, separator: char, two: string)
    requires Shape(t, head, point, separator, two)
    ensures Replace(t, point, ".") == head + "." + two
    ensures Replace(Remove(t, separator), point, ".") == Remove(head, separator) + "." + two
  {
    ReplaceConcat(head + [point], two, separator, []);
    ReplaceConcat(head, [point], separator, []);
    ReplaceAbsent(two, separator, []);
    assert Remove([point], separator) == [point];
    PointReplaced(head, point, two);
    ReplaceKeepsOut(head, separator, [], point);
    PointReplaced(Remove(head, separator), point, two);
  }

  lemma ShapeSplit(t: string, head: string, point: char, separator: char, two: string)
    requires Shape(t, head, point, separator, two)
    ensures PointAtLast(t, point) == head + "." + two
    ensures Count(t, point) == 1
  {
    ShapePoint(t, head, point, separator, two);
    CutAt(head, point, two);
    ReplaceAbsent(head, point, []);
    CountBetween(head, point, two);
  }

  lemma CutAt(front: string, c: char, back: string)
    ensures var t := front + [c] + back; t[..|front|] == front && t[|front| + 1..] == back
  {
  }

  lemma CountBetween(front: string, c: char, back: string)
    requires c !in back
    ensures Count(front + [c] + back, c) == Count(front, c) + 1
  {
    CountOfConcat(front + [c], back, c);
    CountOfConcat(front, [c], c);
    assert Count([c], c) == 1;
  }

  lemma PointReplaced(head: string, point: char, two: string)
    requires point !in head && AllDigits(two) && !IsDigit(point)
    ensures Replace(head + [point] + two, point, ".") == head + "." + two
  {
    ReplaceConcat(head + [point], two, point, ".");
    ReplaceConcat(head, [point], point, ".");
    ReplaceAbsent(head, point, ".");
    ReplaceAbsent(two, point, ".");
  }

  lemma {:induction false} ReplaceKeepsOut(s: string, c: char, sub: string, other: char)
    requires other !in s && other !in sub
    ensures other !in Replace(s, c, sub)
  {
    if s != [] {
      ReplaceKeepsOut(s[1..], c, sub, other);
    }
  }

  lemma {:induction false} CountOfConcat(a: string, b: string, c: char)
    ensures Count(a + b, c) == Count(a, c) + Count(b, c)
  {
    if a == [] {
      assert a + b == b;
    } else {
      assert (a + b)[1..] == a[1..] + b;
      CountOfConcat(a[1..], b, c);
    }
  }

  lemma {:induction false} GroupLastDigit(digits: string, separator: char)
    requires digits != [] && AllDigits(digits)
    ensures var g := Group(digits, separator);
            g != [] && IsDigit(g[0]) && IsDigit(g[|g| - 1]) && (separator in g && !IsDigit(separator) ==> |digits| > 3)
    ensures |digits| > 3 ==> separator in Group(digits, separator)
  {
    if |digits| > 3 {
      GroupLastDigit(digits[..|digits| - 3], separator);
    }
  }

  /** The head of a printed amount: sign and whole part. */
  function Head(cents: int, style: Style, grouped: bool): string {
    Sign(cents) + PrintWhole(Magnitude(cents) / 100, style, grouped)
  }

  lemma WholeFacts(n: nat, style: Style, grouped: bool)
    ensures var whole := PrintWhole(n, style, grouped);
            && whole != [] && IsDigit(whole[0]) && IsDigit(whole[|whole| - 1])
            && Over(whole, style.Separator())
            && Remove(whole, style.Separator()) == Decimal(n)
            && (style.Separator() !in whole ==> whole == Decimal(n))
  {
    var whole, separator := PrintWhole(n, style, grouped), style.Separator();
    Ungroup(Decimal(n), separator);
    GroupShape(Decimal(n), separator);
    GroupLastDigit(Decimal(n), separator);
    ReplaceAbsent(Decimal(n), separator, []);
    if separator !in whole {
      ReplaceAbsent(whole, separator, []);
    }
  }

  lemma PrintedShape(cents: int, style: Style, grouped: bool)
    ensures var t, head := Print(cents, style, grouped), Head(cents, style, grouped);
            && Shape(t, head, style.Point(), style.Separator(), Two(Magnitude(cents) % 100))
            && Remove(head, style.Separator()) == PlainHead(cents)
            && (style.Separator() !in head ==> head == PlainHead(cents))
            && Strip(t) == t && t[0] != '('
  {
    var whole, two := PrintWhole(Magnitude(cents) / 100, style, grouped), Two(Magnitude(cents) % 100);
    WholeFacts(Magnitude(cents) / 100, style, grouped);
    PrintedParts(cents < 0, whole, style.Point(), style.Separator(), two);
  }

  lemma PrintedParts(negative: bool, whole: string, point: char, separator: char, two: string)
    requires whole != [] && IsDigit(whole[0]) && IsDigit(whole[|whole| - 1]) && Over(whole, separator)
    requires Separators(point, separator) && |two| == 2 && AllDigits(two)
    ensures var sign := if negative then "-" else "";
            var t, head := sign + (whole + [point] + two), sign + whole;
            && Shape(t, head, point, separator, two)
            && Remove(head, separator) == sign + Remove(whole, separator)
            && (separator in head <==> separator in whole)
            && Strip(t) == t && t[0] != '('
  {
    var sign := if negative then "-" else "";
    var t, head := sign + (whole + [point] + two), sign + whole;
    assert t == head + [point] + two;
    ReplaceConcat(sign, whole, separator, []);
    ReplaceAbsent(sign, separator, []);
    assert t[|t| - 1] == two[1] && (t[0] == '-' || t[0] == whole[0]);
  }

  /** Whatever branch a parser takes on `t`, it goes on with `plain`. */
  predicate ReadsAs(t: string, plain: string) {
    && CommaOrBoth(t) == plain
    && (',' in t && '.' in t ==> LaterIsPoint(t) == plain)
    && (',' in t && '.' !in t ==>
          |t| - 1 - LastIndex(t, ',') == 2 && PointAtLast(t, ',') == plain
          && Replace(Remove(t, '.'), ',', ".") == plain)
    && (',' !in t ==> Count(t, '.') == 1 && t == plain)
  }

  lemma ShapeIsPlain(t: string, head: string, point: char, separator: char, two: string, plainHead: string)
    requires Shape(t, head, point, separator, two)
    requires Remove(head, separator) == plainHead && (separator !in head ==> head == plainHead)
    ensures ReadsAs(t, plainHead + "." + two)
  {
    ShapePoint(t, head, point, separator, two);
    ShapeReplaced(t, head, point, separator, two);
    ShapeSplit(t, head, point, separator, two);
    if point == ',' {
      CommaIsPoint(t, plainHead + "." + two);
    } else {
      PointIsPoint(t, plainHead + "." + two);
    }
  }

  lemma CommaIsPoint(t: string, plain: string)
    requires ',' in t && LastIndex(t, ',') == |t| - 3 > LastIndex(t, '.')
    requires Replace(Remove(t, '.'), ',', ".") == plain
    requires '.' !in t ==> PointAtLast(t, ',') == plain && Replace(t, ',', ".") == plain
    ensures ReadsAs(t, plain)
  {
  }

  lemma PointIsPoint(t: string, plain: string)
    requires '.' in t && LastIndex(t, '.') == |t| - 3 > LastIndex(t, ',') && Count(t, '.') == 1
    requires Replace(Remove(t, ','), '.', ".") == plain
    requires ',' !in t ==> Replace(t, '.', ".") == plain
    ensures ReadsAs(t, plain)
  {
    PointByPoint(t);
    PointByPoint(Remove(t, ','));
    if ',' !in t {
      ReplaceAbsent(t, ',', ".");
    }
  }

  lemma {:induction false} PointByPoint(s: string)
    ensures Replace(s, '.', ".") == s
  {
    if s != [] {
      PointByPoint(s[1..]);
    }
  }

  /**
   * The round trip: every amount of cents, printed with two decimals in either style, grouped or
   * not, is read back by each parser. The extractor reads the sign from the match around the digits.
   */
  lemma RoundTrip(cents: int, style: Style, grouped: bool)
    ensures LedgerNumber(Print(cents, style, grouped)) == Some(Dec(cents, 2))
    ensures DetectorAmount(Print(cents, style, grouped)) == Some(Dec(cents, 2))
    ensures ImporterAmount(Print(cents, style, grouped)) == Some(Dec(cents, 2))
    ensures OcrNumber(Print(cents, style, grouped)) == Amount(Dec(cents, 2))
    ensures AmountFromMatch(cents < 0, PrintUnsigned(Magnitude(cents), style, grouped)) == Some(Dec(cents, 2))
  {
    PrintedAmountIsRead(cents, style, grouped);
    PrintedAmountIsRead(Magnitude(cents), style, grouped);
    assert Print(Magnitude(cents), style, grouped) == PrintUnsigned(Magnitude(cents), style, grouped);
  }

  lemma PrintedAmountIsRead(cents: int, style: Style, grouped: bool)
    ensures var t, d := Print(cents, style, grouped), Dec(cents, 2);
            && LedgerNumber(t) == Some(d) && DetectorAmount(t) == Some(d) && ImporterAmount(t) == Some(d)
            && ExtractorAmount(t) == Some(d) && OcrNumber(t) == Amount(d)
            && t != [] && Strip(t) == t && Keep(t) == t && t[0] != '('
  {
    var t, head, two := Print(cents, style, grouped), Head(cents, style, grouped), Two(Magnitude(cents) % 100);
    PrintedShape(cents, style, grouped);
    ShapeKept(t, head, style.Point(), style.Separator(), two);
    ShapeIsPlain(t, head, style.Point(), style.Separator(), two, PlainHead(cents));
    PlainIsRead(cents);
    TextIsRead(t, Plain(cents), Dec(cents, 2));
  }

  lemma TextIsRead(t: string, plain: string, d: Dec)
    requires Keep(t) == t && !NoNumber(t) && Strip(t) == t && t[0] != '('
    requires ReadsAs(t, plain) && DecimalOf(plain) == Some(d)
    ensures LedgerNumber(t) == Some(d) && DetectorAmount(t) == Some(d) && ImporterAmount(t) == Some(d)
    ensures ExtractorAmount(t) == Some(d) && OcrNumber(t) == Amount(d)
  {
    NothingToRemove(t);
  }

  lemma NothingToRemove(t: string)
    requires Keep(t) == t
    ensures Remove(Remove(t, '\U{20AC}'), ' ') == t && Remove(t, ' ') == t
  {
    ReplaceAbsent(t, '\U{20AC}', []);
    ReplaceAbsent(t, ' ', []);
  }

  lemma {:induction false} KeepConcat(a: string, b: string)
    ensures Keep(a + b) == Keep(a) + Keep(b)
  {
    if a == [] {
      assert a + b == b;
    } else {
      assert (a + b)[1..] == a[1..] + b;
      KeepConcat(a[1..], b);
    }
  }

  lemma ParenthesesAreDropped(t: string)
    requires Keep(t) == t
    ensures var p := "(" + t + ")"; Keep(p) == t && Strip(p) == p && p[0] == '(' && p[|p| - 1] == ')'
  {
    KeepConcat("(" + t, ")");
    KeepConcat("(", t);
    assert Keep("(") == [] && Keep(")") == [];
  }

  function Parenthesized(cents: int, style: Style, grouped: bool): string {
    "(" + Print(cents, style, grouped) + ")"
  }

  /** `-abs(x)` in cents. */
  function Minus(cents: int): int {
    if cents > 0 then -cents else cents
  }

  /**
   * Parentheses mean a negative amount to the statement importer, and nothing to the duplicate
   * detector: on amounts in parentheses they disagree exactly about the positive ones.
   */
  lemma ParenthesesDisagreeIff(cents: int, style: Style, grouped: bool)
    ensures var t := Parenthesized(cents, style, grouped);
            && LedgerNumber(t) == Some(Dec(Minus(cents), 2)) && DetectorAmount(t) == Some(Dec(cents, 2))
            && (LedgerNumber(t) != DetectorAmount(t) <==> cents > 0)
  {
    PrintedAmountIsRead(cents, style, grouped);
    WrappedIsRead(Print(cents, style, grouped));
    LoweredDec(cents);
  }

  lemma LoweredDec(cents: int)
    ensures Lowered(Some(Dec(cents, 2))) == Some(Dec(Minus(cents), 2))
  {
  }

  lemma WrappedIsRead(t: string)
    requires t != [] && Strip(t) == t && Keep(t) == t && t[0] != '('
    ensures var p := "(" + t + ")";
            LedgerNumber(p) == Lowered(LedgerNumber(t)) && DetectorAmount(p) == DetectorAmount(t)
  {
    ParenthesesAreDropped(t);
    KeptDecides(t, "(" + t + ")");
  }

  lemma KeptDecides(t: string, wrapped: string)
    requires t != [] && Strip(t) == t && Keep(t) == t && t[0] != '('
    requires Strip(wrapped) == wrapped != [] && Keep(wrapped) == t
    requires wrapped[0] == '(' && wrapped[|wrapped| - 1] == ')'
    ensures DetectorAmount(wrapped) == DetectorAmount(t)
    ensures LedgerNumber(wrapped) == Lowered(LedgerNumber(t))
  {
  }

  // ------------------------------------------------------------------------------------------
  // Whole amounts, printed without decimals
  // ------------------------------------------------------------------------------------------

  lemma GroupedIsKept(t: string, separator: char)
    requires t != [] && IsDigit(t[0]) && IsDigit(t[|t| - 1]) && Over(t, separator)
    requires separator == ',' || separator == '.'
    ensures Strip(t) == t && Keep(t) == t && !NoNumber(t) && t[0] != '('
    ensures (',' in t ==> separator == ',') && ('.' in t ==> separator == '.')
  {
    DigitEnds(t);
    KeepAll(t, separator);
    OnlySeparator(t, separator, ',');
    OnlySeparator(t, separator, '.');
  }

  lemma DigitEnds(t: string)
    requires t != [] && IsDigit(t[0]) && IsDigit(t[|t| - 1])
    ensures Strip(t) == t && t[0] != '('
    ensures !NoNumber(t)
  {
    assert !IsSpace(t[0]) && !IsSpace(t[|t| - 1]);
  }

  lemma OnlySeparator(t: string, separator: char, c: char)
    requires Over(t, separator) && !IsDigit(c)
    ensures c in t ==> c == separator
  {
  }

  lemma KeepAll(t: string, separator: char)
    requires Over(t, separator) && (separator == ',' || separator == '.')
    ensures Keep(t) == t
  {
    forall i | 0 <= i < |t| ensures IsAmountChar(t[i]) {
    }
  }

  lemma DigitsAreRead(digits: string)
    requires digits != [] && AllDigits(digits)
    ensures DecimalOf(digits) == Some(Dec(DecimalValue(digits), 0))
  {
    assert IsDigit(digits[0]) && LastIndex(digits, '.') == -1;
  }

  /** A grouped number ends in a separator and three digits. */
  lemma GroupTail(digits: string, separator: char)
    requires AllDigits(digits) && |digits| > 3 && !IsDigit(separator)
    ensures var t, front, back := Group(digits, separator), digits[..|digits| - 3], digits[|digits| - 3..];
            && separator in t && LastIndex(t, separator) == |t| - 4
            && PointAtLast(t, separator) == front + "." + back
            && (Count(t, separator) <= 1 ==> t == front + [separator] + back)
  {
    var front, back := digits[..|digits| - 3], digits[|digits| - 3..];
    var g := Group(front, separator);
    var t := g + [separator] + back;
    assert t[|g|] == separator;
    LastIndexIs(t, separator, |g|);
    Ungroup(front, separator);
    CutAt(g, separator, back);
    CountBetween(g, separator, back);
    if separator !in g {
      ReplaceAbsent(g, separator, []);
    }
  }

  lemma ThousandthIsRead(n: nat)
    requires n >= 1000
    ensures var digits := Decimal(n);
            && |digits| > 3
            && DecimalOf(digits[..|digits| - 3] + "." + digits[|digits| - 3..]) == Some(Dec(n, 3))
  {
    DecimalLength(n);
    DecimalRoundTrip(n);
    var digits := Decimal(n);
    var front, back := digits[..|digits| - 3], digits[|digits| - 3..];
    assert front + back == digits;
    UnsignedParts(front, back);
    var s := front + "." + back;
    assert IsDigit(s[0]);
  }

  lemma NothingToDrop(t: string)
    requires t != [] && Strip(t) == t && Keep(t) == t && t[0] != '('
    ensures LedgerNumber(t) == LedgerKept(t) && DetectorAmount(t) == DetectorKept(t)
    ensures ImporterAmount(t) == DecimalOf(CommaOrBoth(t)) && ExtractorAmount(t) == DecimalOf(CommaOrBoth(t))
  {
    NothingToRemove(t);
  }

  /** A group of three digits behind a separator, the only kind of separator. */
  predicate IsGrouped(t: string, separator: char) {
    && !NoNumber(t) && separator in t && LastIndex(t, separator) == |t| - 4
    && ((separator == ',' && '.' !in t) || (separator == '.' && ',' !in t))
  }

  lemma LedgerReadsGrouped(t: string, separator: char)
    requires IsGrouped(t, separator)
    ensures LedgerKept(t) == DecimalOf(if separator == ',' then Remove(t, ',')
                                       else if Count(t, '.') > 1 then PointAtLast(t, '.') else t)
    ensures DetectorKept(t)
         == DecimalOf(if separator == ',' || Count(t, '.') > 1 then PointAtLast(t, separator) else t)
  {
  }

  /** What the three other parsers hand to the decimal constructor. */
  lemma OthersReadGrouped(t: string, separator: char)
    requires IsGrouped(t, separator)
    ensures CommaOrBoth(t) == Replace(t, ',', ".")
  {
  }

  /** What the OCR processor makes of a text that only holds amount characters. */
  function OcrPlain(t: string): string {
    if ',' in t && '.' in t then LaterIsPoint(t)
    else if ',' in t then Replace(Remove(t, '.'), ',', ".")
    else if Count(t, '.') > 1 then Remove(t, '.')
    else t
  }

  function OcrResult(d: Option<Dec>, t: string): OcrAmount {
    match d case None => Unread(t) case Some(v) => Amount(v)
  }

  lemma OcrReads(t: string)
    requires t != [] && Keep(t) == t
    ensures OcrNumber(t) == OcrResult(DecimalOf(OcrPlain(t)), t)
  {
  }

  lemma OcrReadsGrouped(t: string, separator: char)
    requires IsGrouped(t, separator)
    ensures OcrPlain(t) == if separator == ',' then Replace(t, ',', ".")
            else if Count(t, '.') > 1 then Remove(t, '.') else t
  {
    if separator == ',' {
      ReplaceAbsent(t, '.', []);
    }
  }

  // ------------------------------------------------------------------------------------------
  // One separator or several
  // ------------------------------------------------------------------------------------------

  lemma FrontOf(n: nat)
    requires n >= 1000
    ensures |Decimal(n)| > 3 && Decimal(n)[..|Decimal(n)| - 3] == Decimal(n / 1000)
  {
    assert Decimal(n) == Decimal(n / 10) + [DigitChar(n % 10)];
    assert Decimal(n / 10) == Decimal(n / 10 / 10) + [DigitChar(n / 10 % 10)];
    assert Decimal(n / 10 / 10) == Decimal(n / 10 / 10 / 10) + [DigitChar(n / 10 / 10 % 10)];
    assert n / 10 / 10 / 10 == n / 1000;
  }

  lemma TwoPoints(front: string, back: string)
    requires front != [] && IsDigit(front[0]) && '.' in front && AllDigits(back)
    ensures DecimalOf(front + "." + back) == None
  {
    var t := front + "." + back;
    CutAtPoint(front, back);
    var i :| 0 <= i < |front| && front[i] == '.';
    assert (front + back)[i] == '.';
    assert t[0] == front[0];
  }

  lemma {:induction false} PointsIn(s: string)
    requires s != [] && IsDigit(s[0])
    ensures var r := Replace(s, ',', "."); r != [] && r[0] == s[0]
    ensures ',' in s || '.' in s ==> '.' in Replace(s, ',', ".")
  {
    HasPoint(s);
  }

  lemma {:induction false} HasPoint(s: string)
    ensures ',' in s || '.' in s ==> '.' in Replace(s, ',', ".")
  {
    if s != [] {
      HasPoint(s[1..]);
      assert s == [s[0]] + s[1..];
    }
  }

  /** The last three digits. */
  function LastGroup(n: nat): string
    requires n >= 1000
  {
    FrontOf(n);
    Decimal(n)[|Decimal(n)| - 3..]
  }

  /** The last group apart from what is before it. */
  lemma GroupedTail(n: nat, separator: char)
    requires n >= 1000 && (separator == ',' || separator == '.')
    ensures var t, g, back := Group(Decimal(n), separator), Group(Decimal(n / 1000), separator), LastGroup(n);
            && t == g + [separator] + back && AllDigits(back) && g != [] && IsDigit(g[0])
            && (separator in g <==> n >= 1000000)
  {
    var front := Decimal(n / 1000);
    FrontOf(n);
    DecimalLength(n / 1000);
    WholeFacts(n / 1000, if separator == '.' then European else American, true);
    if n >= 1000000 {
      GroupTail(front, separator);
    }
  }

  lemma PointsOfGrouped(g: string, separator: char, back: string)
    requires AllDigits(back) && (separator == ',' || separator == '.')
    ensures Replace(g + [separator] + back, ',', ".") == Replace(g, ',', ".") + "." + back
  {
    ReplaceConcat(g + [separator], back, ',', ".");
    ReplaceConcat(g, [separator], ',', ".");
    ReplaceAbsent(back, ',', ".");
    SeparatorIsPoint(separator);
  }

  lemma SeparatorIsPoint(separator: char)
    requires separator == ',' || separator == '.'
    ensures Replace([separator], ',', ".") == "."
  {
    assert [separator][1..] == [];
  }

  /** With commas as points, one separator leaves a thousandth, and several leave no number. */
  lemma PointedIsRead(n: nat, separator: char)
    requires n >= 1000 && (separator == ',' || separator == '.')
    ensures DecimalOf(Replace(Group(Decimal(n), separator), ',', ".")) == if n < 1000000 then Some(Dec(n, 3)) else None
  {
    var g, back := Group(Decimal(n / 1000), separator), LastGroup(n);
    GroupedTail(n, separator);
    PointsOfGrouped(g, separator, back);
    PointsIn(g);
    if n >= 1000000 {
      TwoPoints(Replace(g, ',', "."), back);
    } else {
      FrontOf(n);
      DecimalLength(n / 1000);
      ReplaceAbsent(g, ',', ".");
      ThousandthIsRead(n);
    }
  }

  lemma SeparatorCount(n: nat, separator: char)
    requires n >= 1000 && (separator == ',' || separator == '.')
    ensures Count(Group(Decimal(n), separator), separator) > 1 <==> n >= 1000000
  {
    GroupedTail(n, separator);
    CountBetween(Group(Decimal(n / 1000), separator), separator, LastGroup(n));
  }

  /** What a parser makes of a grouped whole amount: itself, a thousandth of it, or nothing. */
  datatype Reading = Right | Thousandth | Nothing

  function Read(n: int, r: Reading): Option<Dec> {
    match r
    case Right => Some(Dec(n, 0))
    case Thousandth => Some(Dec(n, 3))
    case Nothing => None
  }

  /** The same for the OCR processor, which hands back what it cannot read. */
  function OcrRead(n: int, r: Reading, t: string): OcrAmount {
    if r.Nothing? then Unread(t) else Amount(Read(n, r).value)
  }

  function LedgerReading(n: nat, style: Style): Reading {
    if n < 1000 || style.American? then Right else Thousandth
  }

  function DetectorReading(n: nat): Reading {
    if n < 1000 then Right else Thousandth
  }

  function PointedReading(n: nat): Reading {
    if n < 1000 then Right else if n < 1000000 then Thousandth else Nothing
  }

  function OcrReading(n: nat, style: Style): Reading {
    if style.European? && n >= 1000000 then Right else PointedReading(n)
  }

  lemma SmallIsRead(n: nat, style: Style)
    requires n < 1000
    ensures var t, d := PrintWhole(n, style, true), Dec(n, 0);
            && LedgerNumber(t) == Some(d) && DetectorAmount(t) == Some(d)
            && ImporterAmount(t) == Some(d) && ExtractorAmount(t) == Some(d) && OcrNumber(t) == Amount(d)
  {
    var t := Decimal(n);
    DecimalLength(n);
    WholeFacts(n, style, true);
    GroupedIsKept(t, style.Separator());
    DecimalRoundTrip(n);
    DigitsAreRead(t);
    NothingToDrop(t);
    OcrReads(t);
    ReplaceAbsent(t, ',', ".");
  }

  lemma BigIsGrouped(n: nat, style: Style)
    requires n >= 1000
    ensures var t := PrintWhole(n, style, true);
            && IsGrouped(t, style.Separator()) && Remove(t, style.Separator()) == Decimal(n)
            && Keep(t) == t && Strip(t) == t && t[0] != '('
  {
    WholeFacts(n, style, true);
    GroupedIsKept(PrintWhole(n, style, true), style.Separator());
    DecimalLength(n);
    GroupTail(Decimal(n), style.Separator());
  }

  /** The digits with a point before the last three. */
  function ThousandthText(n: nat): string
    requires n >= 1000
  {
    FrontOf(n);
    Decimal(n)[..|Decimal(n)| - 3] + "." + Decimal(n)[|Decimal(n)| - 3..]
  }

  lemma BigEndsInGroup(n: nat, style: Style)
    requires n >= 1000
    ensures var t, separator := PrintWhole(n, style, true), style.Separator();
            && separator in t && PointAtLast(t, separator) == ThousandthText(n)
            && (separator == '.' && Count(t, '.') <= 1 ==> t == ThousandthText(n))
  {
    FrontOf(n);
    GroupTail(Decimal(n), style.Separator());
  }

  lemma ReadByLedgerAndDetector(t: string, separator: char, digits: string, whole: Dec, thousandth: string, part: Dec)
    requires IsGrouped(t, separator) && Keep(t) == t && Strip(t) == t && t[0] != '('
    requires Remove(t, separator) == digits && PointAtLast(t, separator) == thousandth
    requires separator == '.' && Count(t, '.') <= 1 ==> t == thousandth
    requires DecimalOf(digits) == Some(whole) && DecimalOf(thousandth) == Some(part)
    ensures LedgerNumber(t) == Some(if separator == ',' then whole else part) && DetectorAmount(t) == Some(part)
  {
    NothingToDrop(t);
    LedgerReadsGrouped(t, separator);
  }

  lemma BigByLedgerAndDetector(n: nat, style: Style)
    requires n >= 1000
    ensures LedgerNumber(PrintWhole(n, style, true)) == Read(n, LedgerReading(n, style))
    ensures DetectorAmount(PrintWhole(n, style, true)) == Some(Dec(n, 3))
  {
    var t, separator := PrintWhole(n, style, true), style.Separator();
    BigIsGrouped(n, style);
    BigEndsInGroup(n, style);
    BothTextsAreRead(n);
    assert separator == ',' <==> style.American?;
    ReadByLedgerAndDetector(t, separator, Decimal(n), Dec(n, 0), ThousandthText(n), Dec(n, 3));
  }

  lemma BothTextsAreRead(n: nat)
    requires n >= 1000
    ensures DecimalOf(Decimal(n)) == Some(Dec(n, 0)) && DecimalOf(ThousandthText(n)) == Some(Dec(n, 3))
  {
    DecimalRoundTrip(n);
    DigitsAreRead(Decimal(n));
    FrontOf(n);
    ThousandthIsRead(n);
  }

  lemma ReadByOthers(t: string, separator: char)
    requires IsGrouped(t, separator) && Keep(t) == t && Strip(t) == t && t[0] != '('
    ensures ImporterAmount(t) == DecimalOf(Replace(t, ',', "."))
            && ExtractorAmount(t) == DecimalOf(Replace(t, ',', "."))
  {
    NothingToDrop(t);
    OthersReadGrouped(t, separator);
  }

  lemma BigByOthers(n: nat, style: Style)
    requires n >= 1000
    ensures ImporterAmount(PrintWhole(n, style, true)) == Read(n, PointedReading(n))
    ensures ExtractorAmount(PrintWhole(n, style, true)) == Read(n, PointedReading(n))
  {
    BigIsGrouped(n, style);
    ReadByOthers(PrintWhole(n, style, true), style.Separator());
    PointedIsRead(n, style.Separator());
  }

  lemma BigByOcr(n: nat, style: Style)
    requires n >= 1000
    ensures var t := PrintWhole(n, style, true); OcrNumber(t) == OcrRead(n, OcrReading(n, style), t)
  {
    var t, separator := PrintWhole(n, style, true), style.Separator();
    BigIsGrouped(n, style);
    OcrReads(t);
    OcrReadsGrouped(t, separator);
    SeparatorCount(n, separator);
    PointedIsRead(n, separator);
    DecimalRoundTrip(n);
    DigitsAreRead(Decimal(n));
    if style.European? {
      ReplaceAbsent(t, ',', ".");
    }
  }

  lemma MagnitudeReadIff(n: nat, style: Style)
    ensures ReadsWhole(PrintWhole(n, style, true), n, style)
  {
    if n < 1000 {
      SmallIsRead(n, style);
    } else {
      BigByLedgerAndDetector(n, style);
      BigByOthers(n, style);
      BigByOcr(n, style);
    }
  }

  // ------------------------------------------------------------------------------------------
  // Whole amounts with a minus sign
  // ------------------------------------------------------------------------------------------

  /** Digits and one kind of separator, with a digit at either end. */
  predicate IsUnsigned(t: string, separator: char) {
    && t != [] && IsDigit(t[0]) && IsDigit(t[|t| - 1]) && Over(t, separator) && (separator == ',' || separator == '.')
  }

  lemma MinusNegates(t: string)
    requires '-' !in t
    ensures DecimalOf("-" + t) == Negated(DecimalOf(t))
  {
    MinusIsRead("-" + t, t);
  }

  lemma MinusStays(t: string, c: char, sub: string)
    requires c != '-'
    ensures Replace("-" + t, c, sub) == "-" + Replace(t, c, sub) && Count("-" + t, c) == Count(t, c)
    ensures LastIndex("-" + t, c) == if c in t then LastIndex(t, c) + 1 else -1
    ensures c in "-" + t <==> c in t
  {
    ReplaceConcat("-", t, c, sub);
    CountOfConcat("-", t, c);
    if c in t {
      LastIndexIs("-" + t, c, LastIndex(t, c) + 1);
    }
  }

  lemma PointAtLastIs(front: string, c: char, back: string)
    requires c !in back
    ensures c in front + [c] + back && PointAtLast(front + [c] + back, c) == Remove(front, c) + "." + back
  {
    var t := front + [c] + back;
    assert t[|front|] == c;
    LastIndexIs(t, c, |front|);
    CutAt(front, c, back);
  }

  lemma MinusInFront(front: string, middle: string, back: string)
    ensures "-" + (front + middle + back) == ("-" + front) + middle + back
    ensures '-' !in front && '-' !in middle && '-' !in back ==> '-' !in front + middle + back
  {
  }

  lemma MinusBeforeParts(front: string, c: char, back: string)
    requires c != '-' && c !in back && '-' !in front && '-' !in back
    ensures var t, s := front + [c] + back, ("-" + front) + [c] + back;
            c in t && c in s && PointAtLast(s, c) == "-" + PointAtLast(t, c) && '-' !in PointAtLast(t, c)
  {
    PointAtLastIs(front, c, back);
    PointAtLastIs("-" + front, c, back);
    MinusStays(front, c, []);
    ReplaceKeepsOut(front, c, [], '-');
    MinusInFront(Remove(front, c), ".", back);
  }

  lemma MinusBeforePoint(t: string, c: char)
    requires c != '-' && c in t && '-' !in t
    ensures c in "-" + t && PointAtLast("-" + t, c) == "-" + PointAtLast(t, c) && '-' !in PointAtLast(t, c)
  {
    var i := LastIndex(t, c);
    assert t == t[..i] + [c] + t[i + 1..];
    MinusInFront(t[..i], [c], t[i + 1..]);
    MinusBeforeParts(t[..i], c, t[i + 1..]);
  }

  lemma SignedIsKept(t: string, separator: char)
    requires IsUnsigned(t, separator)
    ensures var s := "-" + t;
            Strip(s) == s && Keep(s) == s && !NoNumber(s) && s[0] != '(' && '-' !in t
  {
    GroupedIsKept(t, separator);
    KeepConcat("-", t);
    assert !IsSpace('-') && !IsSpace(t[|t| - 1]);
    assert Keep("-") == "-";
  }

  lemma PointNegates(t: string, c: char)
    requires c != '-' && c in t && '-' !in t
    ensures c in "-" + t && DecimalOf(PointAtLast("-" + t, c)) == Negated(DecimalOf(PointAtLast(t, c)))
  {
    MinusBeforePoint(t, c);
    MinusNegates(PointAtLast(t, c));
  }

  lemma CommaIsRead(t: string)
    requires !NoNumber(t) && ',' in t && '.' !in t
    ensures LedgerKept(t)
         == if |t| - 1 - LastIndex(t, ',') <= 2 then DecimalOf(PointAtLast(t, ',')) else DecimalOf(Remove(t, ','))
    ensures DetectorKept(t) == DecimalOf(PointAtLast(t, ','))
  {
  }

  lemma CommaNegates(t: string)
    requires IsUnsigned(t, ',') && ',' in t
    ensures DetectorKept("-" + t) == Negated(DetectorKept(t)) && LedgerKept("-" + t) == Negated(LedgerKept(t))
  {
    GroupedIsKept(t, ',');
    SignedIsKept(t, ',');
    MinusStays(t, ',', []);
    MinusStays(t, '.', []);
    CommaIsRead(t);
    CommaIsRead("-" + t);
    PointNegates(t, ',');
    RemovedNegates(t, ',');
  }

  lemma RemovedNegates(t: string, c: char)
    requires c != '-' && '-' !in t
    ensures DecimalOf(Remove("-" + t, c)) == Negated(DecimalOf(Remove(t, c)))
  {
    MinusStays(t, c, []);
    ReplaceKeepsOut(t, c, [], '-');
    MinusNegates(Remove(t, c));
  }

  lemma NoCommaNegates(t: string, separator: char)
    requires IsUnsigned(t, separator) && ',' !in t
    ensures LedgerKept("-" + t) == Negated(LedgerKept(t)) && DetectorKept("-" + t) == Negated(DetectorKept(t))
  {
    GroupedIsKept(t, separator);
    SignedIsKept(t, separator);
    MinusStays(t, ',', []);
    MinusStays(t, '.', []);
    MinusNegates(t);
    if '.' in t {
      PointNegates(t, '.');
    }
  }

  lemma OthersNegate(t: string, separator: char)
    requires IsUnsigned(t, separator)
    ensures DecimalOf(CommaOrBoth("-" + t)) == Negated(DecimalOf(CommaOrBoth(t)))
  {
    GroupedIsKept(t, separator);
    SignedIsKept(t, separator);
    MinusStays(t, ',', ".");
    MinusStays(t, '.', []);
    ReplaceKeepsOut(t, ',', ".", '-');
    MinusNegates(Replace(t, ',', "."));
  }

  lemma OcrNegates(t: string, separator: char)
    requires IsUnsigned(t, separator)
    ensures DecimalOf(OcrPlain("-" + t)) == Negated(DecimalOf(OcrPlain(t)))
  {
    GroupedIsKept(t, separator);
    SignedIsKept(t, separator);
    var u := Remove(t, '.');
    MinusStays(t, ',', []);
    MinusStays(t, '.', []);
    MinusStays(u, ',', ".");
    ReplaceKeepsOut(t, '.', [], '-');
    ReplaceKeepsOut(u, ',', ".", '-');
    MinusNegates(t);
    MinusNegates(u);
    MinusNegates(Replace(u, ',', "."));
  }

  /** The five parsers read a text as these readings of a whole amount. */
  predicate ReadsWhole(t: string, n: int, style: Style) {
    var m := Magnitude(n);
    && LedgerNumber(t) == Read(n, LedgerReading(m, style)) && DetectorAmount(t) == Read(n, DetectorReading(m))
    && ImporterAmount(t) == Read(n, PointedReading(m)) && ExtractorAmount(t) == Read(n, PointedReading(m))
    && OcrNumber(t) == OcrRead(n, OcrReading(m, style), t)
  }

  lemma LedgerAndDetectorNegate(t: string, separator: char)
    requires IsUnsigned(t, separator)
    ensures LedgerNumber("-" + t) == Negated(LedgerNumber(t)) && DetectorAmount("-" + t) == Negated(DetectorAmount(t))
  {
    GroupedIsKept(t, separator);
    SignedIsKept(t, separator);
    NothingToDrop(t);
    NothingToDrop("-" + t);
    if ',' in t {
      CommaNegates(t);
    } else {
      NoCommaNegates(t, separator);
    }
  }

  lemma ImporterAndExtractorNegate(t: string, separator: char)
    requires IsUnsigned(t, separator)
    ensures ImporterAmount("-" + t) == Negated(ImporterAmount(t))
    ensures ExtractorAmount("-" + t) == Negated(ExtractorAmount(t))
  {
    GroupedIsKept(t, separator);
    SignedIsKept(t, separator);
    NothingToDrop(t);
    NothingToDrop("-" + t);
    OthersNegate(t, separator);
  }

  lemma OcrNumberNegates(t: string, separator: char, n: int, r: Reading)
    requires IsUnsigned(t, separator) && OcrNumber(t) == OcrRead(n, r, t)
    ensures OcrNumber("-" + t) == OcrRead(-n, r, "-" + t)
  {
    GroupedIsKept(t, separator);
    SignedIsKept(t, separator);
    OcrReads(t);
    OcrReads("-" + t);
    OcrNegates(t, separator);
    OcrReadingNegates(DecimalOf(OcrPlain(t)), n, r, t, "-" + t);
  }

  lemma OcrReadingNegates(d: Option<Dec>, n: int, r: Reading, t: string, s: string)
    requires OcrResult(d, t) == OcrRead(n, r, t)
    ensures OcrResult(Negated(d), s) == OcrRead(-n, r, s)
  {
  }

  lemma NegatedReading(n: int, r: Reading)
    ensures Negated(Read(n, r)) == Read(-n, r)
  {
  }

  lemma SignedReads(t: string, separator: char, n: int, style: Style)
    requires IsUnsigned(t, separator) && n > 0 && ReadsWhole(t, n, style)
    ensures ReadsWhole("-" + t, -n, style)
  {
    LedgerAndDetectorNegate(t, separator);
    ImporterAndExtractorNegate(t, separator);
    OcrNumberNegates(t, separator, n, OcrReading(n, style));
    NegatedReading(n, LedgerReading(n, style));
    NegatedReading(n, DetectorReading(n));
    NegatedReading(n, PointedReading(n));
  }

  /**
   * A grouped whole amount, signed or not, is not always read back. From a thousand on the duplicate
   * detector reads a thousandth, the statement importer only in European style; the bank importer and
   * the extractor read a thousandth below a million and nothing from there on, and the OCR processor
   * does the same but gets European amounts from a million on right.
   */
  lemma WholeAmountReadIff(n: int, style: Style)
    ensures ReadsWhole(Sign(n) + PrintWhole(Magnitude(n), style, true), n, style)
  {
    var t := PrintWhole(Magnitude(n), style, true);
    MagnitudeReadIff(Magnitude(n), style);
    if n < 0 {
      WholeFacts(Magnitude(n), style, true);
      SignedReads(t, style.Separator(), Magnitude(n), style);
    } else {
      assert "" + t == t;
    }
  }
}
