/**
 * When a financial document is taken for a duplicate of one already known
 * (src/document_handling/duplicate_detector.py).
 */
module DuplicateDecision {
  import opened Text
  import opened Money
  import opened IdempotencyKeys
  import AmountParsing
  import Numbers

  // ------------------------------------------------------------------------------------------
  // Normalized texts
  // ------------------------------------------------------------------------------------------

  predicate IsWordChar(c: char) {
    'a' <= c <= 'z' || IsDigit(c)
  }

  /** Every run of other characters becomes one space. */
  function Squeeze(s: string): string {
    if s == [] then []
    else
      var n := |s| - 1;
      var before := Squeeze(s[..n]);
      if IsWordChar(s[n]) then before + [s[n]]
      else if before != [] && before[|before| - 1] == ' ' then before
      else before + [' ']
  }

  function Normalize(text: string): string {
    Strip(Squeeze(Strip(Lower(text))))
  }

  /** Letters and digits, and at least four of them with a digit, or nothing. */
  function NormalizeReference(text: string): string {
    var r := Remove(Normalize(text), ' ');
    if |r| < 4 || !exists i :: 0 <= i < |r| && IsDigit(r[i]) then "" else r
  }

  /** The first candidate that is a reference at all. */
  function FirstReference(candidates: seq<string>): string {
    if candidates == [] then ""
    else if NormalizeReference(candidates[0]) != "" then NormalizeReference(candidates[0])
    else FirstReference(candidates[1..])
  }

  // ------------------------------------------------------------------------------------------
  // Documents and their evidence
  // ------------------------------------------------------------------------------------------

  datatype Reference = Invoice | Receipt | Order | Transaction

  /** The candidates of a reference: the extracted one, then what patterns find in the text. */
  datatype Document = Document(
    id: Option<string>, documentType: string, vendor: string, date: string, amount: Option<real>, tax: Option<real>,
    invoice: seq<string>, receipt: seq<string>, order: seq<string>, transaction: seq<string>,
    ocrText: string, filename: string, storedFingerprint: Option<TextDigest>)

  datatype Evidence = Evidence(
    credit: bool, vendor: string, date: string, amount: string, tax: string,
    invoice: string, receipt: string, order: string, transaction: string)

  function AmountText(amount: Option<real>): string {
    if amount.None? then "" else AmountParsing.Print(HalfEven(amount.value), AmountParsing.American, false)
  }

  function IsCredit(doc: Document): bool {
    Replace(Normalize(doc.documentType), ' ', "_") == "credit_note"
  }

  function EvidenceOf(doc: Document): Evidence {
    Evidence(IsCredit(doc), Normalize(doc.vendor), Normalize(doc.date), AmountText(doc.amount), AmountText(doc.tax),
             FirstReference(doc.invoice), FirstReference(doc.receipt),
             FirstReference(doc.order), FirstReference(doc.transaction))
  }

  function Ref(e: Evidence, field: Reference): string {
    match field
    case Invoice => e.invoice
    case Receipt => e.receipt
    case Order => e.order
    case Transaction => e.transaction
  }

  function FingerprintFields(e: Evidence, filename: string): seq<string> {
    [if e.credit then "credit" else "standard", e.vendor, e.date, e.amount, e.tax,
     e.invoice, e.receipt, e.order, e.transaction, filename]
  }

  function BuildFingerprint(doc: Document): TextDigest {
    Sha256(Join(FingerprintFields(EvidenceOf(doc), Normalize(doc.filename)), '|'))
  }

  // ------------------------------------------------------------------------------------------
  // Comparing evidence
  // ------------------------------------------------------------------------------------------

  /** A shorter reference may be clipped, so only those of one length disprove a match. */
  predicate ReferencesConflict(a: string, b: string) {
    a != b && |a| == |b|
  }

  predicate ConflictsAt(a: Evidence, b: Evidence, field: Reference) {
    Ref(a, field) != "" && Ref(b, field) != "" && ReferencesConflict(Ref(a, field), Ref(b, field))
  }

  predicate MatchesAt(a: Evidence, b: Evidence, field: Reference) {
    Ref(a, field) != "" && Ref(a, field) == Ref(b, field)
  }

  const ALL := [Invoice, Receipt, Order, Transaction]

  function Select(fields: seq<Reference>, wanted: Reference -> bool): seq<Reference> {
    if fields == [] then []
    else (if wanted(fields[0]) then [fields[0]] else []) + Select(fields[1..], wanted)
  }

  function IdentityConflicts(a: Evidence, b: Evidence): seq<Reference> {
    Select(ALL, field => ConflictsAt(a, b, field))
  }

  function Same(a: string, b: string): nat {
    if a != "" && a == b then 1 else 0
  }

  function Corroborating(a: Evidence, b: Evidence): nat {
    Same(a.vendor, b.vendor) + Same(a.date, b.date) + Same(a.amount, b.amount)
  }

  predicate ExactEvidenceMatch(a: Evidence, b: Evidence) {
    && a.credit == b.credit
    && IdentityConflicts(a, b) == []
    && ((Select(ALL, field => MatchesAt(a, b, field)) != [] && Corroborating(a, b) >= 2) || Corroborating(a, b) == 3)
  }

  predicate SupportsExactMatch(a: Evidence, b: Evidence) {
    && a.credit == b.credit
    && (Select(ALL, field => Ref(a, field) != "" && Ref(b, field) != "") != []
        || (a.vendor != "" && b.vendor != "" && a.date != "" && b.date != "" && a.amount != "" && b.amount != ""))
  }

  // ------------------------------------------------------------------------------------------
  // Similarity
  // ------------------------------------------------------------------------------------------

  /** The ratio of two texts is `SequenceMatcher`'s. */
  datatype Config = Config(ratio: (string, string) -> real, threshold: real, tolerance: real)

  datatype Comparison = Comparison(score: real, weight: real)

  function CompareText(ratio: (string, string) -> real, a: string, b: string, weight: real): seq<Comparison> {
    if a != "" && b != "" then [Comparison(ratio(a, b), weight)] else []
  }

  function CompareExact(a: string, b: string, weight: real): seq<Comparison> {
    if a != "" && b != "" then [Comparison(if a == b then 1.0 else 0.0, weight)] else []
  }

  function CompareAmount(a: Option<real>, b: Option<real>, tolerance: real, weight: real): seq<Comparison> {
    if a.Some? && b.Some? then [Comparison(if Abs(a.value - b.value) <= tolerance then 1.0 else 0.0, weight)] else []
  }

  /** References of different lengths are not compared. */
  function CompareReference(a: string, b: string, weight: real): seq<Comparison> {
    if a != "" && b != "" && |a| == |b| then CompareExact(a, b, weight) else []
  }

  function PrimaryReference(e: Evidence): string {
    if e.invoice != "" then e.invoice else if e.receipt != "" then e.receipt else e.order
  }

  /** What is compared of a document, the texts normalized. */
  datatype Signals = Signals(
    vendor: string, date: string, amount: Option<real>, primary: string, transaction: string, ocrText: string)

  function SignalsOf(doc: Document): Signals {
    var e := EvidenceOf(doc);
    Signals(e.vendor, e.date, doc.amount, PrimaryReference(e), e.transaction, Normalize(doc.ocrText))
  }

  function Compare(config: Config, a: Signals, b: Signals): seq<Comparison> {
    CompareText(config.ratio, a.vendor, b.vendor, 30.0)
    + CompareExact(a.date, b.date, 25.0)
    + CompareAmount(a.amount, b.amount, config.tolerance, 30.0)
    + CompareReference(a.primary, b.primary, 35.0)
    + CompareReference(a.transaction, b.transaction, 40.0)
    + CompareText(config.ratio, a.ocrText, b.ocrText, 15.0)
  }

  function Comparisons(config: Config, a: Document, b: Document): seq<Comparison> {
    Compare(config, SignalsOf(a), SignalsOf(b))
  }

  function Weight(comparisons: seq<Comparison>): real {
    if comparisons == [] then 0.0 else comparisons[0].weight + Weight(comparisons[1..])
  }

  function Times(score: real, weight: real): (r: real)
    ensures score == 1.0 ==> r == weight
    ensures score == 0.0 ==> r == 0.0
  {
    score * weight
  }

  function Weighted(comparisons: seq<Comparison>): real {
    if comparisons == [] then 0.0 else Times(comparisons[0].score, comparisons[0].weight) + Weighted(comparisons[1..])
  }

  /** The weighted mean, between zero and one. */
  function Score(comparisons: seq<Comparison>): (score: real)
    ensures 0.0 <= score <= 1.0
  {
    if Weight(comparisons) == 0.0 then 0.0
    else
      var mean := Weighted(comparisons) / Weight(comparisons);
      if mean > 1.0 then 1.0 else Max(0.0, mean)
  }

  predicate FuzzyMatch(config: Config, a: Document, b: Document) {
    |Comparisons(config, a, b)| >= 3 && Score(Comparisons(config, a, b)) >= config.threshold
  }

  // ------------------------------------------------------------------------------------------
  // The decision
  // ------------------------------------------------------------------------------------------

  datatype Field = Vendor | Date | Amount | Tax | Number(reference: Reference)

  datatype Conflict = Conflict(documentId: Option<string>, fields: seq<Reference>)

  datatype Decision =
    | Duplicate(score: real, exact: bool, matchedId: Option<string>, fields: seq<Field>)
    | NotDuplicate(fingerprint: TextDigest, conflicts: seq<Conflict>)

  function MatchingNumbers(a: Evidence, b: Evidence, fields: seq<Reference>): seq<Field> {
    if fields == [] then []
    else (if MatchesAt(a, b, fields[0]) then [Number(fields[0])] else []) + MatchingNumbers(a, b, fields[1..])
  }

  function MatchingFields(a: Evidence, b: Evidence): seq<Field> {
    (if Same(a.vendor, b.vendor) == 1 then [Vendor] else [])
    + (if Same(a.date, b.date) == 1 then [Date] else [])
    + (if Same(a.amount, b.amount) == 1 then [Amount] else [])
    + (if Same(a.tax, b.tax) == 1 then [Tax] else [])
    + MatchingNumbers(a, b, ALL)
  }

  predicate Comparable(doc: Document, existing: Document) {
    IsCredit(doc) == IsCredit(existing) && IdentityConflicts(EvidenceOf(doc), EvidenceOf(existing)) == []
  }

  predicate FingerprintMatches(doc: Document, existing: Document) {
    Some(BuildFingerprint(doc)) == existing.storedFingerprint || BuildFingerprint(doc) == BuildFingerprint(existing)
  }

  predicate ExactMatch(doc: Document, existing: Document) {
    var a, b := EvidenceOf(doc), EvidenceOf(existing);
    ExactEvidenceMatch(a, b) || (SupportsExactMatch(a, b) && FingerprintMatches(doc, existing))
  }

  /** Of the same polarity, without conflicting references, and matching exactly or closely enough. */
  predicate Qualifies(config: Config, doc: Document, existing: Document) {
    Comparable(doc, existing) && (ExactMatch(doc, existing) || FuzzyMatch(config, doc, existing))
  }

  function Match(config: Config, doc: Document, existing: Document): Decision {
    var fields := MatchingFields(EvidenceOf(doc), EvidenceOf(existing));
    if ExactMatch(doc, existing) then Duplicate(1.0, true, existing.id, fields)
    else
      var score := Score(Comparisons(config, doc, existing));
      Duplicate(HalfEven(score * 100.0) as real / 10000.0, false, existing.id, fields)
  }

  function ConflictWith(doc: Document, existing: Document): seq<Conflict> {
    var fields := IdentityConflicts(EvidenceOf(doc), EvidenceOf(existing));
    if IsCredit(doc) == IsCredit(existing) && fields != [] then [Conflict(existing.id, fields)] else []
  }

  /** What is said of one known document. */
  datatype Finding = Finding(conflict: seq<Conflict>, found: Option<Decision>)

  type Examiner = Document -> Finding

  function Examine(config: Config, doc: Document, existing: Document): Finding {
    Finding(ConflictWith(doc, existing),
            if Qualifies(config, doc, existing) then Some(Match(config, doc, existing)) else None)
  }

  function ExaminerFor(config: Config, doc: Document): Examiner {
    existing => Examine(config, doc, existing)
  }

  /** The conflicts in order. */
  function Conflicts(examine: Examiner, existing: seq<Document>): seq<Conflict> {
    if existing == [] then []
    else Conflicts(examine, existing[..|existing| - 1]) + examine(existing[|existing| - 1]).conflict
  }

  function UpToTen(conflicts: seq<Conflict>): seq<Conflict> {
    if |conflicts| <= 10 then conflicts else conflicts[..10]
  }

  ghost predicate FirstAt(examine: Examiner, existing: seq<Document>, k: int) {
    && 0 <= k < |existing| && examine(existing[k]).found.Some?
    && forall j :: 0 <= j < k ==> examine(existing[j]).found.None?
  }

  /** The first finding decides; without one, the first ten conflicts are told. */
  ghost predicate Decides(examine: Examiner, fingerprint: TextDigest, existing: seq<Document>, r: Decision) {
    if r.Duplicate? then exists k :: FirstAt(examine, existing, k) && examine(existing[k]).found == Some(r)
    else
      && (forall j :: 0 <= j < |existing| ==> examine(existing[j]).found.None?)
      && r == NotDuplicate(fingerprint, UpToTen(Conflicts(examine, existing)))
  }

  method Scan(examine: Examiner, fingerprint: TextDigest, existing: seq<Document>) returns (r: Decision)
    requires forall d :: examine(d).found.Some? ==> examine(d).found.value.Duplicate?
    ensures Decides(examine, fingerprint, existing, r)
  {
    var conflicts: seq<Conflict> := [];
    assert existing[..0] == [];
    for i := 0 to |existing|
      invariant forall j :: 0 <= j < i ==> examine(existing[j]).found.None?
      invariant conflicts == Conflicts(examine, existing[..i])
    {
      var finding := examine(existing[i]);
      if finding.found.Some? {
        assert FirstAt(examine, existing, i);
        return finding.found.value;
      }
      assert existing[..i + 1][..i] == existing[..i];
      conflicts := conflicts + finding.conflict;
    }
    assert existing[..|existing|] == existing;
    r := NotDuplicate(fingerprint, UpToTen(conflicts));
  }

  ghost predicate IsDecision(config: Config, doc: Document, existing: seq<Document>, r: Decision) {
    Decides(ExaminerFor(config, doc), BuildFingerprint(doc), existing, r)
  }

  method IsDuplicate(config: Config, doc: Document, existing: seq<Document>) returns (r: Decision)
    ensures IsDecision(config, doc, existing, r)
  {
    r := Scan(ExaminerFor(config, doc), BuildFingerprint(doc), existing);
  }

  lemma Examined(config: Config, doc: Document, existing: Document)
    ensures ExaminerFor(config, doc)(existing).found
         == if Qualifies(config, doc, existing) then Some(Match(config, doc, existing)) else None
  {
  }

  ghost predicate FirstMatch(config: Config, doc: Document, existing: seq<Document>, k: int) {
    && 0 <= k < |existing| && Qualifies(config, doc, existing[k])
    && forall j :: 0 <= j < k ==> !Qualifies(config, doc, existing[j])
  }

  lemma FirstIsFirstMatch(config: Config, doc: Document, existing: seq<Document>, k: int)
    requires FirstAt(ExaminerFor(config, doc), existing, k)
    ensures FirstMatch(config, doc, existing, k)
    ensures ExaminerFor(config, doc)(existing[k]).found == Some(Match(config, doc, existing[k]))
  {
    Examined(config, doc, existing[k]);
    forall j | 0 <= j < k ensures !Qualifies(config, doc, existing[j]) {
      assert ExaminerFor(config, doc)(existing[j]).found.None?;
      Examined(config, doc, existing[j]);
    }
  }

  /**
   * The decision is a duplicate exactly when some document qualifies, and then it is the match of
   * the first that does.
   */
  lemma DecisionIff(config: Config, doc: Document, existing: seq<Document>, r: Decision)
    ensures IsDecision(config, doc, existing, r) ==>
              (r.Duplicate? <==> exists k :: 0 <= k < |existing| && Qualifies(config, doc, existing[k]))
    ensures IsDecision(config, doc, existing, r) && r.Duplicate? ==>
              exists k :: FirstMatch(config, doc, existing, k) && r == Match(config, doc, existing[k])
  {
    if IsDecision(config, doc, existing, r) {
      var examine := ExaminerFor(config, doc);
      if r.Duplicate? {
        var k :| FirstAt(examine, existing, k) && examine(existing[k]).found == Some(r);
        FirstIsFirstMatch(config, doc, existing, k);
      } else {
        forall j | 0 <= j < |existing| ensures !Qualifies(config, doc, existing[j]) {
          assert examine(existing[j]).found.None?;
          Examined(config, doc, existing[j]);
        }
      }
    }
  }

  // ------------------------------------------------------------------------------------------
  // Normalized texts have no separator
  // ------------------------------------------------------------------------------------------

  predicate IsWord(s: string) {
    forall i :: 0 <= i < |s| ==> IsWordChar(s[i])
  }

  predicate IsSpaced(s: string) {
    forall i :: 0 <= i < |s| ==> IsWordChar(s[i]) || s[i] == ' '
  }

  lemma {:induction false} SqueezeIsSpaced(s: string)
    ensures IsSpaced(Squeeze(s))
  {
    if s != [] {
      SqueezeIsSpaced(s[..|s| - 1]);
    }
  }

  lemma {:induction false} WordIsSqueezed(s: string)
    requires IsWord(s)
    ensures Squeeze(s) == s
  {
    if s != [] {
      WordIsSqueezed(s[..|s| - 1]);
    }
  }

  lemma {:induction false} StripLeftKeeps(s: string)
    requires IsSpaced(s)
    ensures IsSpaced(StripLeft(s))
  {
    if s != [] && IsSpace(s[0]) {
      StripLeftKeeps(s[1..]);
    }
  }

  lemma NormalizedIsSpaced(text: string)
    ensures IsSpaced(Normalize(text))
  {
    var s := Squeeze(Strip(Lower(text)));
    SqueezeIsSpaced(Strip(Lower(text)));
    StripLeftKeeps(s);
  }

  lemma {:induction false} RemoveSpaces(s: string)
    requires IsSpaced(s)
    ensures IsWord(Remove(s, ' '))
    ensures IsWord(s) ==> Remove(s, ' ') == s
  {
    if s != [] {
      RemoveSpaces(s[1..]);
    }
  }

  lemma {:induction false} ReferenceIsWord(candidates: seq<string>)
    ensures IsWord(FirstReference(candidates))
  {
    if candidates != [] {
      ReferenceIsWord(candidates[1..]);
      NormalizedIsSpaced(candidates[0]);
      RemoveSpaces(Normalize(candidates[0]));
    }
  }

  lemma WordIsNormal(s: string)
    requires IsWord(s)
    ensures Normalize(s) == s
  {
    assert Lower(s) == s;
    WordIsSqueezed(s);
    assert s != [] ==> IsWordChar(s[0]) && IsWordChar(s[|s| - 1]);
  }

  /** A reference that is normalized again, as the similarity does, stays as it is. */
  lemma {:induction false} ReferenceIsStable(candidates: seq<string>)
    ensures NormalizeReference(FirstReference(candidates)) == FirstReference(candidates)
  {
    var r := FirstReference(candidates);
    ReferenceIsWord(candidates);
    WordIsNormal(r);
    RemoveSpaces(r);
    if candidates != [] {
      ReferenceIsStable(candidates[1..]);
    }
  }

  lemma {:induction false} DecimalHasNoBar(n: nat)
    ensures '|' !in Decimal(n)
  {
    assert AllDigits(Decimal(n));
  }

  lemma AmountHasNoBar(amount: Option<real>)
    ensures '|' !in AmountText(amount)
  {
    if amount.Some? {
      var n := Numbers.Magnitude(HalfEven(amount.value));
      DecimalHasNoBar(n / 100);
      assert AllDigits(AmountParsing.Two(n % 100));
    }
  }

  ghost predicate HasNoBar(e: Evidence) {
    && '|' !in e.vendor && '|' !in e.date && '|' !in e.amount && '|' !in e.tax
    && '|' !in e.invoice && '|' !in e.receipt && '|' !in e.order && '|' !in e.transaction
  }

  lemma NormalizedHasNoBar(text: string)
    ensures '|' !in Normalize(text)
  {
    NormalizedIsSpaced(text);
  }

  lemma ReferenceHasNoBar(candidates: seq<string>)
    ensures '|' !in FirstReference(candidates)
  {
    ReferenceIsWord(candidates);
  }

  lemma EvidenceHasNoBar(doc: Document)
    ensures HasNoBar(EvidenceOf(doc))
  {
    NormalizedHasNoBar(doc.vendor);
    NormalizedHasNoBar(doc.date);
    AmountHasNoBar(doc.amount);
    AmountHasNoBar(doc.tax);
    ReferenceHasNoBar(doc.invoice);
    ReferenceHasNoBar(doc.receipt);
    ReferenceHasNoBar(doc.order);
    ReferenceHasNoBar(doc.transaction);
  }

  lemma FieldsHaveNoBar(e: Evidence, filename: string)
    requires HasNoBar(e) && '|' !in filename
    ensures forall i :: 0 <= i < 10 ==> '|' !in FingerprintFields(e, filename)[i]
  {
  }

  lemma FieldsTellApart(a: Evidence, fileA: string, b: Evidence, fileB: string)
    requires FingerprintFields(a, fileA) == FingerprintFields(b, fileB)
    ensures a == b && fileA == fileB
  {
    var x, y := FingerprintFields(a, fileA), FingerprintFields(b, fileB);
    assert x[0] == y[0] && x[1] == y[1] && x[2] == y[2] && x[3] == y[3] && x[4] == y[4];
    assert x[5] == y[5] && x[6] == y[6] && x[7] == y[7] && x[8] == y[8] && x[9] == y[9];
    assert |"credit"| != |"standard"|;
  }

  /** Fingerprints agree exactly when all evidence and the file name do. */
  lemma FingerprintIff(a: Document, b: Document)
    ensures BuildFingerprint(a) == BuildFingerprint(b)
       <==> EvidenceOf(a) == EvidenceOf(b) && Normalize(a.filename) == Normalize(b.filename)
  {
    EvidenceHasNoBar(a);
    EvidenceHasNoBar(b);
    NormalizedHasNoBar(a.filename);
    NormalizedHasNoBar(b.filename);
    FingerprintsTellApart(EvidenceOf(a), Normalize(a.filename), EvidenceOf(b), Normalize(b.filename));
  }

  lemma FingerprintsTellApart(a: Evidence, fileA: string, b: Evidence, fileB: string)
    requires HasNoBar(a) && HasNoBar(b) && '|' !in fileA && '|' !in fileB
    ensures Join(FingerprintFields(a, fileA), '|') == Join(FingerprintFields(b, fileB), '|')
            <==> a == b && fileA == fileB
  {
    if Join(FingerprintFields(a, fileA), '|') == Join(FingerprintFields(b, fileB), '|') {
      FieldsHaveNoBar(a, fileA);
      FieldsHaveNoBar(b, fileB);
      JoinInjective(FingerprintFields(a, fileA), FingerprintFields(b, fileB), '|');
      FieldsTellApart(a, fileA, b, fileB);
    }
  }

  // ------------------------------------------------------------------------------------------
  // The relations are symmetric
  // ------------------------------------------------------------------------------------------

  lemma {:induction false} SelectAgrees(fields: seq<Reference>, p: Reference -> bool, q: Reference -> bool)
    requires forall f :: p(f) == q(f)
    ensures Select(fields, p) == Select(fields, q)
  {
    if fields != [] {
      SelectAgrees(fields[1..], p, q);
    }
  }

  lemma {:induction false} SelectNone(fields: seq<Reference>, p: Reference -> bool)
    ensures Select(fields, p) == [] <==> forall i :: 0 <= i < |fields| ==> !p(fields[i])
  {
    if fields != [] {
      SelectNone(fields[1..], p);
      assert forall i :: 1 <= i < |fields| ==> fields[i] == fields[1..][i - 1];
    }
  }

  lemma ConflictsSymmetric(a: Evidence, b: Evidence)
    ensures IdentityConflicts(a, b) == IdentityConflicts(b, a)
  {
    SelectAgrees(ALL, field => ConflictsAt(a, b, field), field => ConflictsAt(b, a, field));
  }

  lemma EvidenceMatchSymmetric(a: Evidence, b: Evidence)
    ensures ExactEvidenceMatch(a, b) == ExactEvidenceMatch(b, a)
    ensures SupportsExactMatch(a, b) == SupportsExactMatch(b, a)
  {
    ConflictsSymmetric(a, b);
    SelectAgrees(ALL, field => MatchesAt(a, b, field), field => MatchesAt(b, a, field));
    SelectAgrees(ALL, field => Ref(a, field) != "" && Ref(b, field) != "",
                 field => Ref(b, field) != "" && Ref(a, field) != "");
  }

  ghost predicate RatioSymmetric(config: Config) {
    forall x, y :: config.ratio(x, y) == config.ratio(y, x)
  }

  lemma CompareSymmetric(config: Config, a: Signals, b: Signals)
    requires RatioSymmetric(config)
    ensures Compare(config, a, b) == Compare(config, b, a)
  {
    assert config.ratio(a.vendor, b.vendor) == config.ratio(b.vendor, a.vendor);
    assert config.ratio(a.ocrText, b.ocrText) == config.ratio(b.ocrText, a.ocrText);
    AmountSymmetric(a.amount, b.amount, config.tolerance, 30.0);
  }

  lemma AmountSymmetric(x: Option<real>, y: Option<real>, tolerance: real, weight: real)
    ensures CompareAmount(x, y, tolerance, weight) == CompareAmount(y, x, tolerance, weight)
  {
  }

  /** No fingerprint is stored, or the one that belongs to the document. */
  predicate IsFresh(doc: Document) {
    doc.storedFingerprint == None || doc.storedFingerprint == Some(BuildFingerprint(doc))
  }

  lemma ExactMatchSymmetric(a: Document, b: Document)
    requires IsFresh(a) && IsFresh(b)
    ensures ExactMatch(a, b) == ExactMatch(b, a)
  {
    EvidenceMatchSymmetric(EvidenceOf(a), EvidenceOf(b));
    FreshMatch(a, b);
    FreshMatch(b, a);
  }

  lemma FreshMatch(a: Document, b: Document)
    requires IsFresh(b)
    ensures FingerprintMatches(a, b) <==> BuildFingerprint(a) == BuildFingerprint(b)
  {
  }

  /** With stored fingerprints up to date and a symmetric ratio, it does not matter which document was first. */
  lemma QualifiesSymmetric(config: Config, a: Document, b: Document)
    requires RatioSymmetric(config) && IsFresh(a) && IsFresh(b)
    ensures Qualifies(config, a, b) == Qualifies(config, b, a)
  {
    ConflictsSymmetric(EvidenceOf(a), EvidenceOf(b));
    ExactMatchSymmetric(a, b);
    CompareSymmetric(config, SignalsOf(a), SignalsOf(b));
  }

  // ------------------------------------------------------------------------------------------
  // What a similar document must agree on
  // ------------------------------------------------------------------------------------------

  ghost predicate RatioBounded(config: Config) {
    forall x, y :: 0.0 <= config.ratio(x, y) <= 1.0
  }

  predicate AllBounded(comparisons: seq<Comparison>) {
    forall c :: c in comparisons ==> 0.0 <= c.score <= 1.0 && c.weight >= 0.0
  }

  lemma TimesPositive(d: real, y: real)
    requires d > 0.0 && y > 0.0
    ensures d * y > 0.0
  {
  }

  lemma Scaled(score: real, weight: real)
    requires 0.0 <= score <= 1.0 && weight >= 0.0
    ensures 0.0 <= Times(score, weight) <= weight
  {
    if 0.0 < score < 1.0 && weight > 0.0 {
      TimesPositive(score, weight);
      TimesPositive(1.0 - score, weight);
      assert (1.0 - score) * weight == weight - score * weight;
    }
  }

  lemma {:induction false} WeightedAtMost(comparisons: seq<Comparison>)
    requires AllBounded(comparisons)
    ensures 0.0 <= Weighted(comparisons) <= Weight(comparisons)
  {
    if comparisons != [] {
      assert comparisons[0] in comparisons;
      Scaled(comparisons[0].score, comparisons[0].weight);
      WeightedAtMost(comparisons[1..]);
    }
  }

  /** A comparison that failed costs its whole weight. */
  lemma {:induction false} FailureCosts(comparisons: seq<Comparison>, failed: Comparison)
    requires AllBounded(comparisons) && failed in comparisons && failed.score == 0.0
    ensures Weighted(comparisons) + failed.weight <= Weight(comparisons)
  {
    assert comparisons[0] in comparisons;
    if comparisons[0] == failed {
      WeightedAtMost(comparisons[1..]);
    } else {
      Scaled(comparisons[0].score, comparisons[0].weight);
      FailureCosts(comparisons[1..], failed);
    }
  }

  lemma {:induction false} WeightConcat(a: seq<Comparison>, b: seq<Comparison>)
    ensures Weight(a + b) == Weight(a) + Weight(b)
  {
    if a == [] {
      assert a + b == b;
    } else {
      assert (a + b)[1..] == a[1..] + b;
      WeightConcat(a[1..], b);
    }
  }

  lemma WeightOne(comparisons: seq<Comparison>, weight: real)
    requires comparisons == [] || (|comparisons| == 1 && comparisons[0].weight == weight)
    ensures weight >= 0.0 ==> Weight(comparisons) <= weight
  {
  }

  lemma CompareWeight(config: Config, a: Signals, b: Signals)
    ensures Weight(Compare(config, a, b)) <= 175.0
  {
    var vendor, date := CompareText(config.ratio, a.vendor, b.vendor, 30.0), CompareExact(a.date, b.date, 25.0);
    var amount, primary := CompareAmount(a.amount, b.amount, config.tolerance, 30.0),
        CompareReference(a.primary, b.primary, 35.0);
    var transaction, text := CompareReference(a.transaction, b.transaction, 40.0),
        CompareText(config.ratio, a.ocrText, b.ocrText, 15.0);
    WeightOne(vendor, 30.0);
    WeightOne(date, 25.0);
    WeightOne(amount, 30.0);
    WeightOne(primary, 35.0);
    WeightOne(transaction, 40.0);
    WeightOne(text, 15.0);
    WeightConcat(vendor, date);
    WeightConcat(vendor + date, amount);
    WeightConcat(vendor + date + amount, primary);
    WeightConcat(vendor + date + amount + primary, transaction);
    WeightConcat(vendor + date + amount + primary + transaction, text);
  }

  lemma CompareBounded(config: Config, a: Signals, b: Signals)
    requires RatioBounded(config)
    ensures AllBounded(Compare(config, a, b))
  {
    assert 0.0 <= config.ratio(a.vendor, b.vendor) <= 1.0;
    assert 0.0 <= config.ratio(a.ocrText, b.ocrText) <= 1.0;
  }

  lemma Quotient(x: real, y: real)
    requires y > 0.0 && 7.0 * x <= 6.0 * y
    ensures 7.0 * (x / y) <= 6.0
  {
    var q := x / y;
    assert x == q * y;
    if 7.0 * q > 6.0 {
      TimesPositive(7.0 * q - 6.0, y);
      assert false;
    }
  }

  /** With a failed comparison of weight 25 or more the score is at most six sevenths. */
  lemma FailureLowersScore(comparisons: seq<Comparison>, failed: Comparison)
    requires AllBounded(comparisons) && Weight(comparisons) <= 175.0
    requires failed in comparisons && failed.score == 0.0 && failed.weight >= 25.0
    ensures 7.0 * Score(comparisons) <= 6.0
  {
    FailureCosts(comparisons, failed);
    WeightedAtMost(comparisons);
    Quotient(Weighted(comparisons), Weight(comparisons));
  }

  /** Nothing that was compared apart from vendor and text may differ. */
  predicate Agree(config: Config, a: Signals, b: Signals) {
    && (a.date != "" && b.date != "" ==> a.date == b.date)
    && (a.amount.Some? && b.amount.Some? ==> Abs(a.amount.value - b.amount.value) <= config.tolerance)
    && (a.primary != "" && b.primary != "" && |a.primary| == |b.primary| ==> a.primary == b.primary)
    && (a.transaction != "" && b.transaction != "" && |a.transaction| == |b.transaction|
        ==> a.transaction == b.transaction)
  }

  lemma DisagreementFails(config: Config, a: Signals, b: Signals) returns (failed: Comparison)
    requires !Agree(config, a, b)
    ensures failed in Compare(config, a, b) && failed.score == 0.0 && failed.weight >= 25.0
  {
    if a.date != "" && b.date != "" && a.date != b.date {
      failed := CompareExact(a.date, b.date, 25.0)[0];
    } else if a.amount.Some? && b.amount.Some? && Abs(a.amount.value - b.amount.value) > config.tolerance {
      failed := CompareAmount(a.amount, b.amount, config.tolerance, 30.0)[0];
    } else if a.primary != "" && b.primary != "" && |a.primary| == |b.primary| && a.primary != b.primary {
      failed := CompareReference(a.primary, b.primary, 35.0)[0];
    } else {
      failed := CompareReference(a.transaction, b.transaction, 40.0)[0];
    }
  }

  /**
   * With a threshold above six sevenths, as the default of 0.9 is, a document is never found similar
   * to one with another date or amount, or with another complete reference, however alike the texts.
   */
  lemma SimilarDocumentsAgree(config: Config, a: Document, b: Document)
    requires RatioBounded(config) && 7.0 * config.threshold > 6.0
    ensures FuzzyMatch(config, a, b) ==> Agree(config, SignalsOf(a), SignalsOf(b))
  {
    if FuzzyMatch(config, a, b) {
      SimilarSignalsAgree(config, SignalsOf(a), SignalsOf(b));
    }
  }

  lemma SimilarSignalsAgree(config: Config, a: Signals, b: Signals)
    requires RatioBounded(config) && 7.0 * config.threshold > 6.0 && Score(Compare(config, a, b)) >= config.threshold
    ensures Agree(config, a, b)
  {
    if !Agree(config, a, b) {
      var failed := DisagreementFails(config, a, b);
      CompareBounded(config, a, b);
      CompareWeight(config, a, b);
      FailureLowersScore(Compare(config, a, b), failed);
      assert false;
    }
  }

  // ------------------------------------------------------------------------------------------
  // A copy of a document
  // ------------------------------------------------------------------------------------------

  predicate AnyReference(e: Evidence) {
    e.invoice != "" || e.receipt != "" || e.order != "" || e.transaction != ""
  }

  predicate HasBasics(e: Evidence) {
    e.vendor != "" && e.date != "" && e.amount != ""
  }

  /** Equal texts have ratio one. */
  ghost predicate RatioReflexive(config: Config) {
    config.tolerance >= 0.0 && config.threshold <= 1.0 && forall x :: config.ratio(x, x) == 1.0
  }

  lemma {:induction false} AllOnes(comparisons: seq<Comparison>)
    requires forall c :: c in comparisons ==> c.score == 1.0 && c.weight > 0.0
    ensures Weighted(comparisons) == Weight(comparisons)
    ensures comparisons != [] ==> Weight(comparisons) > 0.0
  {
    if comparisons != [] {
      assert comparisons[0] in comparisons;
      AllOnes(comparisons[1..]);
    }
  }

  lemma SelfComparisons(config: Config, a: Signals)
    requires RatioReflexive(config)
    ensures forall c :: c in Compare(config, a, a) ==> c.score == 1.0 && c.weight > 0.0
  {
    assert config.ratio(a.vendor, a.vendor) == 1.0;
    assert config.ratio(a.ocrText, a.ocrText) == 1.0;
  }

  lemma SelfScore(comparisons: seq<Comparison>)
    requires forall c :: c in comparisons ==> c.score == 1.0 && c.weight > 0.0
    ensures comparisons != [] ==> Score(comparisons) == 1.0
  {
    AllOnes(comparisons);
    if comparisons != [] {
      DividedByItself(Weight(comparisons));
    }
  }

  lemma DividedByItself(x: real)
    requires x > 0.0
    ensures x / x == 1.0
  {
  }

  lemma SelfConflicts(e: Evidence)
    ensures IdentityConflicts(e, e) == []
  {
    SelectNone(ALL, field => ConflictsAt(e, e, field));
  }

  lemma AnySelected(e: Evidence, wanted: Reference -> bool)
    requires forall field :: wanted(field) == (Ref(e, field) != "")
    ensures Select(ALL, wanted) != [] <==> AnyReference(e)
  {
    SelectNone(ALL, wanted);
    assert wanted(ALL[0]) == (e.invoice != "") && wanted(ALL[1]) == (e.receipt != "");
    assert wanted(ALL[2]) == (e.order != "") && wanted(ALL[3]) == (e.transaction != "");
  }

  lemma SelfSupports(e: Evidence)
    ensures SupportsExactMatch(e, e) <==> AnyReference(e) || HasBasics(e)
  {
    AnySelected(e, field => Ref(e, field) != "" && Ref(e, field) != "");
  }

  lemma SelfMatches(e: Evidence)
    ensures ExactEvidenceMatch(e, e) ==> AnyReference(e) || HasBasics(e)
  {
    AnySelected(e, field => MatchesAt(e, e, field));
  }

  lemma CopyMatchesIff(doc: Document, copy: Document)
    requires EvidenceOf(doc) == EvidenceOf(copy) && BuildFingerprint(doc) == BuildFingerprint(copy)
    ensures ExactMatch(doc, copy) <==> AnyReference(EvidenceOf(doc)) || HasBasics(EvidenceOf(doc))
  {
    SelfSupports(EvidenceOf(doc));
    SelfMatches(EvidenceOf(doc));
  }

  lemma CopyIsSimilarIff(config: Config, doc: Document, copy: Document)
    requires RatioReflexive(config) && SignalsOf(doc) == SignalsOf(copy)
    ensures FuzzyMatch(config, doc, copy) <==> |Comparisons(config, doc, copy)| >= 3
  {
    SelfComparisons(config, SignalsOf(doc));
    SelfScore(Compare(config, SignalsOf(doc), SignalsOf(doc)));
  }

  lemma CopyIsComparable(doc: Document, copy: Document)
    requires EvidenceOf(doc) == EvidenceOf(copy)
    ensures Comparable(doc, copy)
  {
    SelfConflicts(EvidenceOf(doc));
    assert EvidenceOf(doc).credit == IsCredit(doc) && EvidenceOf(copy).credit == IsCredit(copy);
  }

  lemma CopyLooksTheSame(doc: Document, copy: Document)
    requires copy == doc.(id := copy.id)
    ensures EvidenceOf(doc) == EvidenceOf(copy) && BuildFingerprint(doc) == BuildFingerprint(copy)
    ensures SignalsOf(doc) == SignalsOf(copy)
  {
  }

  /**
   * A document is a duplicate of its own copy exactly when it has a reference, or vendor, date and
   * amount, or three things that can be compared; a copy of less is taken for new.
   */
  lemma CopyQualifiesIff(config: Config, doc: Document, copy: Document)
    requires RatioReflexive(config) && copy == doc.(id := copy.id)
    ensures Qualifies(config, doc, copy) <==>
              AnyReference(EvidenceOf(doc)) || HasBasics(EvidenceOf(doc)) || |Comparisons(config, doc, copy)| >= 3
  {
    CopyLooksTheSame(doc, copy);
    CopyIsComparable(doc, copy);
    CopyMatchesIff(doc, copy);
    CopyIsSimilarIff(config, doc, copy);
  }

  /** Wherever the copy is in the list, the document is found to be a duplicate. */
  lemma CopyIsFound(config: Config, doc: Document, copy: Document, existing: seq<Document>, r: Decision)
    requires RatioReflexive(config) && copy == doc.(id := copy.id) && copy in existing
    ensures IsDecision(config, doc, existing, r) && (AnyReference(EvidenceOf(doc)) || HasBasics(EvidenceOf(doc)))
            ==> r.Duplicate?
  {
    CopyQualifiesIff(config, doc, copy);
    DecisionIff(config, doc, existing, r);
  }
}
