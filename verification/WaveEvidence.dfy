/**
 * The evidence that a Wave transaction carries the source file, the plan built on it and the stage
 * of the work order (src/operations/drive_wave_delivery.py), for documents from Google Drive.
 */
module WaveEvidence {
  import opened Text
  import opened Bytes
  import opened DriveArchiver
  import Money

  // ------------------------------------------------------------------------------------------
  // Fields and their canonical forms
  // ------------------------------------------------------------------------------------------

  datatype Field = Vendor | Date | Amount | Currency | Category | Description | InvoiceNumber | TaxAmount

  const BASE_FIELDS: set<Field> := {Vendor, Date, Amount, Currency, Category, Description}

  /** A field as recorded or observed: missing, text, a text meant as a date, or a number. */
  datatype Value =
    | Missing
    | Words(text: string)
    | Day(day: Option<int>)          // `None`: no date format matches the text
    | Number(value: Option<real>)    // `None`: not a number

  datatype Canonical = Nothing | Plain(text: string) | OnDay(day: int) | Cents(cents: int)

  /** Runs of white space become one space. */
  function Collapse(s: string): string {
    if s == [] then []
    else if IsSpace(s[0]) then
      if |s| > 1 && IsSpace(s[1]) then Collapse(s[1..]) else " " + Collapse(s[1..])
    else [s[0]] + Collapse(s[1..])
  }

  function Upper(s: string): string {
    seq(|s|, i requires 0 <= i < |s| => if 'a' <= s[i] <= 'z' then s[i] - 'a' + 'A' else s[i])
  }

  function Canon(field: Field, value: Value): Canonical {
    match value
    case Missing => Nothing
    case Number(v) => if v.Some? then Cents(Money.HalfEven(v.value)) else Nothing
    case Day(d) => if d.Some? then OnDay(d.value) else Nothing
    case Words(text) =>
      var collapsed := Strip(Collapse(text));
      Plain(if field == Currency then Upper(collapsed) else Lower(collapsed))
  }

  predicate IsMissing(value: Value) {
    value.Missing? || (value.Words? && value.text == "")
  }

  predicate FieldMatches(field: Field, expected: Value, observed: Value) {
    !IsMissing(expected) && !IsMissing(observed) && Canon(field, expected) == Canon(field, observed)
  }

  function Get(fields: map<Field, Value>, field: Field): Value {
    if field in fields then fields[field] else Missing
  }

  // ------------------------------------------------------------------------------------------
  // Documents, records, evidence
  // ------------------------------------------------------------------------------------------

  datatype Lifecycle = Unset | AttachmentVerified | ArchivedMark

  datatype Review = Review(aboutArchive: bool, open: bool)

  /** The record wins over the document where it holds a value. */
  datatype Record = Record(fields: map<Field, Value>, reviewRequired: bool, waveBusiness: bool, archivable: bool)

  datatype Document = Document(
    fields: map<Field, Value>, hasInvoiceNumber: bool, hasVat: bool,
    fromDrive: bool, inSourceFolder: bool, providerId: string,
    filename: string, mimeType: string, md5: string, size: Option<nat>, sha256: Digest,
    supportedExtension: bool, supportedMime: bool,
    duplicate: bool, reviews: seq<Review>, record: Option<Record>,
    fileAvailable: bool, unfinished: bool, lifecycle: Lifecycle)

  datatype Config = Config(businessId: string, archiveEnabled: bool, folders: Folders, reauthorize: bool, maxAge: int)

  datatype Export = Export(terminal: bool, business: bool, externalId: string)

  datatype Evidence = Evidence(
    sourceSha: Digest, uploadSha: Digest, attachmentSha: Digest, readbackVerified: bool,
    size: Option<nat>, filename: string, mimeType: string, isPresent: bool, isOpened: bool, isDownloaded: bool,
    objectId: string, externalId: string, attachmentTransactionId: string, transactionExists: bool,
    matchCount: Option<int>, matchingIds: seq<string>, finished: bool, reviewed: bool,
    businessId: string, pageValid: bool, observedAt: Option<int>,
    expectedDigest: map<Field, Canonical>, observed: map<Field, Value>)

  /** An accepted piece of evidence in the audit log. */
  datatype Accepted = Accepted(evidence: Evidence, createdAt: int)

  const MAX_BYTES: nat := 6 * 1024 * 1024

  function ExpectedFields(doc: Document): map<Field, Value> {
    var record := if doc.record.Some? then doc.record.value.fields else map[];
    map field | field in record.Keys + doc.fields.Keys ::
      if IsMissing(Get(record, field)) then Get(doc.fields, field) else record[field]
  }

  function RequiredFields(doc: Document): set<Field> {
    BASE_FIELDS + (if doc.hasInvoiceNumber then {InvoiceNumber} else {}) + (if doc.hasVat then {TaxAmount} else {})
  }

  /** A digest of the canonical values; as an injection it is those values. */
  function FieldsDigest(doc: Document): map<Field, Canonical> {
    map field | field in RequiredFields(doc) :: Canon(field, Get(ExpectedFields(doc), field))
  }

  // ------------------------------------------------------------------------------------------
  // Reasons against
  // ------------------------------------------------------------------------------------------

  datatype Reason =
    | SourceHashMismatch | UploadHashMismatch | ReadbackBytesMissing | AttachmentHashMismatch
    | SizeMissing | SizeMismatch | FilenameMissing | FilenameMismatch
    | AttachmentMissing | NotOpened | NotDownloaded | ObjectIdMissing
    | TransactionIdMissing | TransactionMissing | MatchNotUnique | MatchIdsInvalid
    | NotFinished | NotReviewed | BusinessMismatch | PageInvalid | ObservationStale
    | AttachmentTransactionMismatch | MimeMismatch | ExpectedFieldsChanged | FieldMismatch(field: Field)
    | EvidenceMissing | VerificationStale | TargetNotBusiness | TransactionIdMismatch
    | BusinessNotConfigured | SourceFilenameMissing | SourceMimeMissing | SourceSizeMissing
    | DuplicateUnresolved | OpenReview | SourceShaMissing | FileTooLarge | ExtensionUnsupported | MimeUnsupported
    | RecordMissing | RecordReviewRequired | RecordNotBusiness | RecordNotReady
    | ArchiveDisabled | NotFromDrive | SourceFolderMissing | ArchiveFolderMissing | SameFolders
    | ReauthorizationRequired | OutsideSourceFolder | ProviderIdMissing

  function When(condition: bool, reason: Reason): set<Reason> {
    if condition then {reason} else {}
  }

  predicate Fresh(observedAt: Option<int>, now: int, maxAge: int) {
    observedAt.Some? && -60 <= now - observedAt.value <= maxAge
  }

  /** The reasons that do not depend on the clock. */
  function StandingReasons(config: Config, doc: Document, e: Evidence): set<Reason> {
    When(e.sourceSha != doc.sha256, SourceHashMismatch)
    + When(e.uploadSha != doc.sha256, UploadHashMismatch)
    + When(!e.readbackVerified, ReadbackBytesMissing)
    + When(e.attachmentSha != doc.sha256, AttachmentHashMismatch)
    + When(e.size.None?, SizeMissing)
    + When(e.size.Some? && doc.size.Some? && e.size != doc.size, SizeMismatch)
    + When(e.filename == "", FilenameMissing)
    + When(e.filename != "" && doc.filename != "" && Lower(e.filename) != Lower(doc.filename), FilenameMismatch)
    + When(!e.isPresent, AttachmentMissing) + When(!e.isOpened, NotOpened) + When(!e.isDownloaded, NotDownloaded)
    + When(Strip(e.objectId) == "", ObjectIdMissing)
    + When(Strip(e.externalId) == "", TransactionIdMissing)
    + When(!e.transactionExists, TransactionMissing)
    + When(e.matchCount != Some(1), MatchNotUnique)
    + When(|e.matchingIds| != 1 || Strip(e.matchingIds[0]) != Strip(e.externalId), MatchIdsInvalid)
    + When(!e.finished, NotFinished) + When(!e.reviewed, NotReviewed)
    + When(config.businessId != "" && e.businessId != config.businessId, BusinessMismatch)
    + When(!e.pageValid || config.businessId == "", PageInvalid)
    + When(Strip(e.attachmentTransactionId) != Strip(e.externalId), AttachmentTransactionMismatch)
    + When(doc.mimeType != "" && Lower(e.mimeType) != Lower(doc.mimeType), MimeMismatch)
    + When(e.expectedDigest != FieldsDigest(doc), ExpectedFieldsChanged)
    + (set field | field in RequiredFields(doc)
                && !FieldMatches(field, Get(ExpectedFields(doc), field), Get(e.observed, field))
         :: FieldMismatch(field))
  }

  function EvidenceReasons(config: Config, doc: Document, e: Evidence, now: int): set<Reason> {
    StandingReasons(config, doc, e) + When(!Fresh(e.observedAt, now, config.maxAge), ObservationStale)
  }

  /** Only the latest five exports count; among them, one to the business with another id speaks against. */
  function ExportReasons(exports: seq<Export>, e: Evidence): set<Reason> {
    var latest := if |exports| > 5 then exports[..5] else exports;
    var terminal := set x | x in latest && x.terminal;
    var business := set x | x in terminal && x.business;
    var ids := set x | x in business && Strip(x.externalId) != "" :: Strip(x.externalId);
    When(terminal != {} && business == {}, TargetNotBusiness)
    + When(business != {} && ids != {} && e.externalId !in ids, TransactionIdMismatch)
  }

  function WaveReasons(config: Config, doc: Document, exports: seq<Export>, accepted: Option<Accepted>, now: int)
    : set<Reason>
  {
    match accepted
    case None => {EvidenceMissing}
    case Some(a) =>
      EvidenceReasons(config, doc, a.evidence, now)
      + When(!Fresh(Some(a.createdAt), now, config.maxAge), VerificationStale)
      + ExportReasons(exports, a.evidence)
  }

  function UploadReasons(doc: Document): set<Reason> {
    When(doc.size.Some? && doc.size.value > MAX_BYTES, FileTooLarge)
    + When(!doc.supportedExtension, ExtensionUnsupported)
    + When(doc.mimeType != "" && !doc.supportedMime, MimeUnsupported)
  }

  predicate HasOpenReview(reviews: seq<Review>) {
    exists r :: r in reviews && r.open
  }

  function RecordReasons(record: Option<Record>): set<Reason> {
    match record
    case None => {RecordMissing}
    case Some(r) => When(r.reviewRequired, RecordReviewRequired) + When(!r.waveBusiness, RecordNotBusiness)
                    + When(!r.archivable, RecordNotReady)
  }

  function DocumentReasons(config: Config, doc: Document): set<Reason> {
    When(config.businessId == "", BusinessNotConfigured)
    + When(Strip(doc.filename) == "", SourceFilenameMissing)
    + When(Strip(doc.mimeType) == "", SourceMimeMissing)
    + When(doc.size.None?, SourceSizeMissing)
    + When(doc.duplicate, DuplicateUnresolved)
    + When(HasOpenReview(doc.reviews), OpenReview)
    + When(doc.sha256.NoDigest?, SourceShaMissing)
    + UploadReasons(doc) + RecordReasons(doc.record)
    + When(!config.archiveEnabled, ArchiveDisabled) + When(!doc.fromDrive, NotFromDrive)
    + When(config.folders.source == "", SourceFolderMissing)
    + When(config.folders.archive == "", ArchiveFolderMissing)
    + When(config.folders.source != "" && config.folders.source == config.folders.archive, SameFolders)
    + When(config.reauthorize, ReauthorizationRequired)
    + When(!doc.inSourceFolder, OutsideSourceFolder)
    + When(Strip(doc.providerId) == "", ProviderIdMissing)
  }

  datatype Plan = AlreadyArchivedPlan | Ready | Blocked(reasons: set<Reason>)

  function PlanArchive(config: Config, doc: Document, exports: seq<Export>, accepted: Option<Accepted>, now: int)
    : Plan
  {
    if doc.lifecycle == ArchivedMark then AlreadyArchivedPlan
    else
      var reasons := DocumentReasons(config, doc) + WaveReasons(config, doc, exports, accepted, now);
      if reasons == {} then Ready else Blocked(reasons)
  }

  // ------------------------------------------------------------------------------------------
  // Accepting evidence
  // ------------------------------------------------------------------------------------------

  /** What the server makes of submitted evidence: it decides on the readback and binds the fields itself. */
  function Normalize(doc: Document, e: Evidence, readback: bool): Evidence {
    e.(readbackVerified := readback, expectedDigest := FieldsDigest(doc))
  }

  /** Bytes read back overrule what the submitter says about the attachment. */
  function FromBytes(e: Evidence, content: Bytes, filename: string, mimeType: string): Evidence {
    e.(attachmentSha := Sha256(content), size := Some(|content|), filename := filename, mimeType := mimeType,
       isPresent := true, isOpened := true, isDownloaded := true)
  }

  predicate Accepts(config: Config, doc: Document, e: Evidence, readback: bool, now: int) {
    EvidenceReasons(config, doc, Normalize(doc, e, readback), now) == {}
  }

  // ------------------------------------------------------------------------------------------
  // The stage of the work order
  // ------------------------------------------------------------------------------------------

  datatype Stage =
    | SourceFileUnavailable | SourceIncompatible | BlockedByReview | NeedsProcessing | CompletedStage
    | ReadyToArchive | RefreshReadback | UploadAndVerify | LocateOrCreate

  predicate MissingExpected(doc: Document) {
    exists field :: field in BASE_FIELDS && IsMissing(Get(ExpectedFields(doc), field))
  }

  predicate AllExpected(doc: Document) {
    forall field :: field in RequiredFields(doc) ==> !IsMissing(Get(ExpectedFields(doc), field))
  }

  function StageOf(config: Config, doc: Document, exports: seq<Export>, accepted: Option<Accepted>, now: int): Stage {
    var plan := PlanArchive(config, doc, exports, accepted, now);
    if !doc.fileAvailable then SourceFileUnavailable
    else if UploadReasons(doc) != {} then SourceIncompatible
    else if (exists r :: r in doc.reviews && r.open && !r.aboutArchive)
            || (doc.record.Some? && doc.record.value.reviewRequired) then BlockedByReview
    else if doc.record.None? || MissingExpected(doc) || doc.unfinished then NeedsProcessing
    else if plan.AlreadyArchivedPlan? then CompletedStage
    else if plan.Ready? then ReadyToArchive
    else if accepted.Some? then RefreshReadback
    else if FirstPosted(exports).Some? && Strip(FirstPosted(exports).value.externalId) != "" then UploadAndVerify
    else LocateOrCreate
  }

  /** The latest finished export to the business. */
  function FirstPosted(exports: seq<Export>): Option<Export> {
    if exports == [] then None
    else if exports[0].terminal && exports[0].business then Some(exports[0])
    else FirstPosted(exports[1..])
  }

  // ------------------------------------------------------------------------------------------
  // Canonical text
  // ------------------------------------------------------------------------------------------

  /** Single spaces are the only white space. */
  predicate Tidy(s: string) {
    forall i :: 0 <= i < |s| && IsSpace(s[i]) ==> s[i] == ' ' && (i + 1 < |s| ==> !IsSpace(s[i + 1]))
  }

  lemma {:induction false} CollapseTidies(s: string)
    ensures Tidy(Collapse(s))
    ensures Collapse(s) != [] && IsSpace(Collapse(s)[0]) ==> s != [] && IsSpace(s[0])
  {
    if s != [] {
      CollapseTidies(s[1..]);
      var rest := Collapse(s[1..]);
      assert Tidy([s[0]] + rest) <== !IsSpace(s[0]);
      if IsSpace(s[0]) && !(|s| > 1 && IsSpace(s[1])) {
        assert rest != [] ==> !IsSpace(rest[0]);
        assert Tidy(" " + rest);
      }
    }
  }

  lemma {:induction false} TidyIsCollapsed(s: string)
    requires Tidy(s)
    ensures Collapse(s) == s
  {
    if s != [] {
      assert Tidy(s[1..]);
      TidyIsCollapsed(s[1..]);
    }
  }

  lemma {:induction false} StripLeftKeepsTidy(s: string)
    requires Tidy(s)
    ensures Tidy(StripLeft(s))
  {
    if s != [] && IsSpace(s[0]) {
      assert Tidy(s[1..]);
      StripLeftKeepsTidy(s[1..]);
    }
  }

  lemma StripKeepsTidy(s: string)
    requires Tidy(s)
    ensures Tidy(Strip(s))
  {
    StripLeftKeepsTidy(s);
    var left := StripLeft(s);
    assert Strip(s) == left[..|Strip(s)|];
  }

  /** Spacing has no influence on a canonical value beyond separating words: canonical spacing is a fixed point. */
  lemma CanonOfTidied(field: Field, text: string)
    ensures Canon(field, Words(Strip(Collapse(text)))) == Canon(field, Words(text))
  {
    CollapseTidies(text);
    StripKeepsTidy(Collapse(text));
    TidyIsCollapsed(Strip(Collapse(text)));
    StripIdempotent(Collapse(text));
  }

  // ------------------------------------------------------------------------------------------
  // Properties of acceptance
  // ------------------------------------------------------------------------------------------

  /** Evidence that only describes the attachment is never accepted. */
  lemma MetadataNeverAccepted(config: Config, doc: Document, e: Evidence, now: int)
    ensures !Accepts(config, doc, e, false, now)
  {
    assert ReadbackBytesMissing in When(true, ReadbackBytesMissing);
    assert ReadbackBytesMissing in EvidenceReasons(config, doc, Normalize(doc, e, false), now);
  }

  /** Accepted bytes are the bytes of the source file. */
  lemma AcceptedBytesAreSource(config: Config, doc: Document, e: Evidence, content: Bytes,
                               filename: string, mimeType: string, now: int)
    requires Accepts(config, doc, FromBytes(e, content, filename, mimeType), true, now)
    ensures Sha256(content) == doc.sha256 && (doc.size.Some? ==> doc.size.value == |content|)
  {
    var n := Normalize(doc, FromBytes(e, content, filename, mimeType), true);
    var reasons := EvidenceReasons(config, doc, n, now);
    assert n.attachmentSha != doc.sha256 ==> AttachmentHashMismatch in reasons;
    assert doc.size.Some? && n.size != doc.size ==> SizeMismatch in reasons;
  }

  lemma FreshReasons(config: Config, doc: Document, e: Evidence, now: int)
    ensures EvidenceReasons(config, doc, e, now) == {}
       <==> StandingReasons(config, doc, e) == {} && Fresh(e.observedAt, now, config.maxAge)
  {
    assert forall r :: r in StandingReasons(config, doc, e) ==> r in EvidenceReasons(config, doc, e, now);
    assert forall r :: r in When(!Fresh(e.observedAt, now, config.maxAge), ObservationStale)
                   ==> r in EvidenceReasons(config, doc, e, now);
  }

  /**
   * As long as document, exports and configuration stay the same, accepted evidence has a reason
   * against it at a later time exactly if the exports speak against it, or its observation or its
   * audit entry is too old.
   */
  lemma AcceptedUntilStale(config: Config, doc: Document, e: Evidence, readback: bool, exports: seq<Export>,
                           t: int, later: int)
    requires Accepts(config, doc, e, readback, t) && t <= later && config.maxAge >= 0
    ensures var n := Normalize(doc, e, readback);
            WaveReasons(config, doc, exports, Some(Accepted(n, t)), later) == {}
            <==> && ExportReasons(exports, n) == {}
                 && later - n.observedAt.value <= config.maxAge && later - t <= config.maxAge
  {
    var n := Normalize(doc, e, readback);
    FreshReasons(config, doc, n, t);
    FreshReasons(config, doc, n, later);
    var reasons := WaveReasons(config, doc, exports, Some(Accepted(n, t)), later);
    assert forall r :: r in EvidenceReasons(config, doc, n, later) ==> r in reasons;
    assert forall r :: r in When(!Fresh(Some(t), later, config.maxAge), VerificationStale) ==> r in reasons;
    assert forall r :: r in ExportReasons(exports, n) ==> r in reasons;
  }

  /** A required canonical field that changes, appears or disappears. */
  ghost predicate CanonicalChange(doc: Document, changed: Document, field: Field) {
    if field in RequiredFields(doc) && field in RequiredFields(changed)
    then Canon(field, Get(ExpectedFields(doc), field)) != Canon(field, Get(ExpectedFields(changed), field))
    else field in RequiredFields(doc) + RequiredFields(changed)
  }

  lemma DigestsDifferIff(doc: Document, changed: Document)
    ensures FieldsDigest(doc) != FieldsDigest(changed) <==> exists field :: CanonicalChange(doc, changed, field)
  {
    var before, after := FieldsDigest(doc), FieldsDigest(changed);
    assert before.Keys == RequiredFields(doc) && after.Keys == RequiredFields(changed);
    if field :| CanonicalChange(doc, changed, field) {
      assert field in before && field in after ==> before[field] != after[field];
    } else {
      forall field ensures field in before <==> field in after {
        assert !CanonicalChange(doc, changed, field);
      }
      forall field | field in before ensures before[field] == after[field] {
        assert !CanonicalChange(doc, changed, field);
      }
    }
  }

  lemma StandingReasonOfDigest(config: Config, doc: Document, e: Evidence)
    requires e.expectedDigest != FieldsDigest(doc)
    ensures StandingReasons(config, doc, e) != {}
  {
    assert ExpectedFieldsChanged in StandingReasons(config, doc, e);
  }

  lemma UnboundDigestBlocks(config: Config, doc: Document, exports: seq<Export>, a: Accepted, now: int)
    requires a.evidence.expectedDigest != FieldsDigest(doc)
    ensures PlanArchive(config, doc, exports, Some(a), now) != Ready
  {
    StandingReasonOfDigest(config, doc, a.evidence);
    if PlanArchive(config, doc, exports, Some(a), now) == Ready {
      ReadyHasNoReasons(config, doc, exports, Some(a), now);
      FreshReasons(config, doc, a.evidence, now);
    }
  }

  /** Once a required canonical field changes, evidence bound to the old fields no longer archives anything. */
  lemma FieldChangeBlocks(config: Config, doc: Document, changed: Document, e: Evidence, readback: bool,
                          exports: seq<Export>, t: int, later: int, field: Field)
    requires CanonicalChange(doc, changed, field)
    ensures PlanArchive(config, changed, exports, Some(Accepted(Normalize(doc, e, readback), t)), later) != Ready
  {
    DigestsDifferIff(doc, changed);
    UnboundDigestBlocks(config, changed, exports, Accepted(Normalize(doc, e, readback), t), later);
  }

  /** Two dates match if they are the same day, two amounts if they are the same in cents; and unreadable ones match. */
  lemma ReadingsMatchIff(field: Field, expected: Option<int>, observed: Option<int>, x: Option<real>, y: Option<real>)
    ensures FieldMatches(field, Day(expected), Day(observed)) <==> expected == observed
    ensures FieldMatches(field, Number(x), Number(y)) <==>
              if x.Some? && y.Some? then Money.HalfEven(x.value) == Money.HalfEven(y.value) else x == y
    ensures FieldMatches(field, Day(None), Day(None)) && FieldMatches(field, Number(None), Number(None))
  {
  }

  // ------------------------------------------------------------------------------------------
  // A plan that is ready
  // ------------------------------------------------------------------------------------------

  lemma ReadyHasNoReasons(config: Config, doc: Document, exports: seq<Export>, accepted: Option<Accepted>, now: int)
    requires PlanArchive(config, doc, exports, accepted, now) == Ready
    ensures DocumentReasons(config, doc) == {} && WaveReasons(config, doc, exports, accepted, now) == {}
    ensures accepted.Some? && EvidenceReasons(config, doc, accepted.value.evidence, now) == {}
  {
    var all := DocumentReasons(config, doc) + WaveReasons(config, doc, exports, accepted, now);
    assert forall r :: r in DocumentReasons(config, doc) ==> r in all;
    assert forall r :: r in WaveReasons(config, doc, exports, accepted, now) ==> r in all;
    assert accepted.None? ==> EvidenceMissing in WaveReasons(config, doc, exports, accepted, now);
    assert accepted.Some? ==> forall r :: r in EvidenceReasons(config, doc, accepted.value.evidence, now) ==>
                                            r in WaveReasons(config, doc, exports, accepted, now);
  }

  lemma AgreedFields(config: Config, doc: Document, e: Evidence, field: Field)
    requires StandingReasons(config, doc, e) == {} && field in RequiredFields(doc)
    ensures FieldMatches(field, Get(ExpectedFields(doc), field), Get(e.observed, field))
  {
    assert !FieldMatches(field, Get(ExpectedFields(doc), field), Get(e.observed, field))
        ==> FieldMismatch(field) in StandingReasons(config, doc, e);
  }

  /**
   * A ready plan rules out every stage that waits for a review, for a compatible file or for Wave.
   * The work order still waits for the retained file or for processing if those are open.
   */
  lemma ReadyPlanStage(config: Config, doc: Document, exports: seq<Export>, accepted: Option<Accepted>, now: int)
    ensures PlanArchive(config, doc, exports, accepted, now) == Ready ==>
              && !MissingExpected(doc)
              && StageOf(config, doc, exports, accepted, now)
                 == if !doc.fileAvailable then SourceFileUnavailable
                    else if doc.unfinished then NeedsProcessing else ReadyToArchive
  {
    if PlanArchive(config, doc, exports, accepted, now) == Ready {
      ReadyIsUnobstructed(config, doc, exports, accepted, now);
      UnobstructedStage(config, doc, exports, accepted, now);
    }
  }

  predicate Unobstructed(doc: Document) {
    && UploadReasons(doc) == {} && !HasOpenReview(doc.reviews) && doc.record.Some? && !doc.record.value.reviewRequired
    && !MissingExpected(doc)
  }

  lemma ReadyIsUnobstructed(config: Config, doc: Document, exports: seq<Export>, accepted: Option<Accepted>, now: int)
    requires PlanArchive(config, doc, exports, accepted, now) == Ready
    ensures Unobstructed(doc)
  {
    ReadyHasNoReasons(config, doc, exports, accepted, now);
    ReadyHasFields(config, doc, exports, accepted, now);
  }

  lemma UnobstructedStage(config: Config, doc: Document, exports: seq<Export>, accepted: Option<Accepted>, now: int)
    requires Unobstructed(doc) && PlanArchive(config, doc, exports, accepted, now) == Ready
    ensures StageOf(config, doc, exports, accepted, now)
         == if !doc.fileAvailable then SourceFileUnavailable
            else if doc.unfinished then NeedsProcessing else ReadyToArchive
  {
  }

  /** Every required field is expected and was observed. */
  lemma ReadyHasFields(config: Config, doc: Document, exports: seq<Export>, accepted: Option<Accepted>, now: int)
    requires PlanArchive(config, doc, exports, accepted, now) == Ready
    ensures AllExpected(doc)
  {
    ReadyHasNoReasons(config, doc, exports, accepted, now);
    var e := accepted.value.evidence;
    FreshReasons(config, doc, e, now);
    forall field | field in RequiredFields(doc) ensures !IsMissing(Get(ExpectedFields(doc), field)) {
      AgreedFields(config, doc, e, field);
    }
  }

  /** A ready plan rests on evidence whose bytes were read back and are those of the source. */
  lemma ReadyRestsOnReadback(config: Config, doc: Document, exports: seq<Export>, accepted: Option<Accepted>, now: int)
    ensures PlanArchive(config, doc, exports, accepted, now) == Ready ==>
              && accepted.Some? && accepted.value.evidence.readbackVerified
              && accepted.value.evidence.attachmentSha == doc.sha256
  {
    if PlanArchive(config, doc, exports, accepted, now) == Ready {
      ReadyHasNoReasons(config, doc, exports, accepted, now);
      var e := accepted.value.evidence;
      assert !e.readbackVerified ==> ReadbackBytesMissing in EvidenceReasons(config, doc, e, now);
      assert e.attachmentSha != doc.sha256 ==> AttachmentHashMismatch in EvidenceReasons(config, doc, e, now);
    }
  }

  // ------------------------------------------------------------------------------------------
  // Documents that can be archived at all
  // ------------------------------------------------------------------------------------------

  /** What an honest observer of the right transaction submits after reading the attachment back. */
  function HonestEvidence(config: Config, doc: Document, id: string, now: int): Evidence {
    Evidence(doc.sha256, doc.sha256, doc.sha256, true, doc.size, doc.filename, doc.mimeType, true, true, true,
             id, id, id, true, Some(1), [id], true, true, config.businessId, true, Some(now),
             FieldsDigest(doc), ExpectedFields(doc))
  }

  lemma NamedDocument(config: Config, doc: Document)
    requires DocumentReasons(config, doc) == {}
    ensures config.businessId != "" && Strip(doc.filename) != "" && doc.size.Some?
  {
    assert config.businessId == "" ==> BusinessNotConfigured in DocumentReasons(config, doc);
    assert Strip(doc.filename) == "" ==> SourceFilenameMissing in DocumentReasons(config, doc);
    assert doc.size.None? ==> SourceSizeMissing in DocumentReasons(config, doc);
  }

  lemma HonestHasNoReasons(config: Config, doc: Document, id: string, now: int)
    requires config.businessId != "" && doc.filename != "" && doc.size.Some? && Strip(id) != "" && AllExpected(doc)
    requires config.maxAge >= 0
    ensures EvidenceReasons(config, doc, HonestEvidence(config, doc, id, now), now) == {}
  {
    var e := HonestEvidence(config, doc, id, now);
    forall field | field in RequiredFields(doc)
      ensures FieldMatches(field, Get(ExpectedFields(doc), field), Get(e.observed, field))
    {
    }
  }

  lemma HonestIsReady(config: Config, doc: Document, id: string, now: int)
    requires IsEligible(config, doc) && config.maxAge >= 0 && Strip(id) != ""
    ensures PlanArchive(config, doc, [], Some(Accepted(HonestEvidence(config, doc, id, now), now)), now) == Ready
    ensures Accepts(config, doc, HonestEvidence(config, doc, id, now), true, now)
  {
    NamedDocument(config, doc);
    assert Strip("") == "";
    HonestHasNoReasons(config, doc, id, now);
  }

  predicate IsEligible(config: Config, doc: Document) {
    DocumentReasons(config, doc) == {} && doc.lifecycle != ArchivedMark && AllExpected(doc)
  }

  function SomeId(): (id: string)
    ensures Strip(id) != ""
  {
    "1"
  }

  lemma ArchivableOnly(config: Config, doc: Document, now: int)
    requires Archivable(config, doc, now)
    ensures IsEligible(config, doc)
  {
    var exports, accepted :| PlanArchive(config, doc, exports, accepted, now) == Ready;
    ReadyHasNoReasons(config, doc, exports, accepted, now);
    ReadyHasFields(config, doc, exports, accepted, now);
  }

  /** There is evidence on which the document can be archived now. */
  ghost predicate Archivable(config: Config, doc: Document, now: int) {
    exists exports, accepted :: PlanArchive(config, doc, exports, accepted, now) == Ready
  }

  /**
   * A document can be archived on some evidence exactly when nothing speaks against the document
   * itself, it is not marked archived yet, and no required field is missing from what is expected.
   */
  lemma ArchivableIff(config: Config, doc: Document, now: int)
    requires config.maxAge >= 0
    ensures Archivable(config, doc, now) <==> IsEligible(config, doc)
  {
    if Archivable(config, doc, now) {
      ArchivableOnly(config, doc, now);
    } else if IsEligible(config, doc) {
      HonestIsReady(config, doc, SomeId(), now);
      assert false;
    }
  }

  /** Nothing speaks against the document or the configuration. */
  predicate IsUnimpeded(config: Config, doc: Document) {
    && config.businessId != "" && Strip(doc.filename) != "" && Strip(doc.mimeType) != "" && doc.size.Some?
    && !doc.duplicate && !HasOpenReview(doc.reviews) && doc.sha256.Sha256?
    && UploadReasons(doc) == {} && RecordReasons(doc.record) == {}
    && config.archiveEnabled && doc.fromDrive && config.folders.source != "" && config.folders.archive != ""
    && config.folders.source != config.folders.archive && !config.reauthorize && doc.inSourceFolder
    && Strip(doc.providerId) != ""
  }

  lemma NoReasonsIff(config: Config, doc: Document)
    ensures DocumentReasons(config, doc) == {} <==> IsUnimpeded(config, doc)
  {
  }

  lemma InConfiguredFolder(config: Config, doc: Document)
    requires DocumentReasons(config, doc) == {}
    ensures doc.fromDrive && doc.inSourceFolder
  {
    assert !doc.fromDrive ==> NotFromDrive in DocumentReasons(config, doc);
    assert !doc.inSourceFolder ==> OutsideSourceFolder in DocumentReasons(config, doc);
  }

  // ------------------------------------------------------------------------------------------
  // An eligible document
  // ------------------------------------------------------------------------------------------

  const SAMPLE_CONFIG := Config("business", true, Folders("intake", "archive"), false, 900)

  function SampleDocument(content: Bytes): Document {
    Document(map[Vendor := Words("shop"), Date := Day(Some(1)), Amount := Number(Some(1.0)), Currency := Words("eur"),
                 Category := Words("office"), Description := Words("paper")],
             false, false, true, true, "1", "a.pdf", "application/pdf", "", Some(|content|), Sha256(content),
             true, true, false, [], Some(Record(map[], false, true, true)), true, false, Unset)
  }

  /** The sample document, processed or not, marked or not. */
  predicate IsSample(doc: Document, content: Bytes) {
    doc == SampleDocument(content).(unfinished := doc.unfinished, lifecycle := doc.lifecycle)
  }

  lemma SampleIsEligible(doc: Document, content: Bytes)
    requires IsSample(doc, content) && |content| <= MAX_BYTES
    ensures DocumentReasons(SAMPLE_CONFIG, doc) == {} && AllExpected(doc)
  {
    SampleIsComplete(doc);
    SampleHasNoReasons(doc, content);
  }

  lemma SampleIsComplete(doc: Document)
    requires doc.record.Some? && doc.record.value.fields == map[] && !doc.hasInvoiceNumber && !doc.hasVat
    requires forall field :: field in BASE_FIELDS ==> field in doc.fields && !IsMissing(doc.fields[field])
    ensures AllExpected(doc)
  {
    forall field | field in RequiredFields(doc) ensures !IsMissing(Get(ExpectedFields(doc), field)) {
      assert field in BASE_FIELDS && field in ExpectedFields(doc).Keys;
      assert IsMissing(Get(doc.record.value.fields, field));
    }
  }

  lemma SampleHasNoReasons(doc: Document, content: Bytes)
    requires IsSample(doc, content) && |content| <= MAX_BYTES
    ensures DocumentReasons(SAMPLE_CONFIG, doc) == {}
  {
    assert Strip("a.pdf") == "a.pdf" && Strip("application/pdf") == "application/pdf" && Strip("1") == "1";
    assert |"intake"| != |"archive"|;
  }

  lemma UnprocessedIsReady(config: Config, doc: Document, id: string, now: int)
    requires IsEligible(config, doc) && config.maxAge >= 0 && Strip(id) != "" && doc.fileAvailable && doc.unfinished
    ensures var accepted := Some(Accepted(HonestEvidence(config, doc, id, now), now));
            PlanArchive(config, doc, [], accepted, now) == Ready
            && StageOf(config, doc, [], accepted, now) == NeedsProcessing
  {
    HonestIsReady(config, doc, id, now);
    ReadyPlanStage(config, doc, [], Some(Accepted(HonestEvidence(config, doc, id, now), now)), now);
  }

  /** A ready plan of a document that has not been processed. */
  lemma ReadyButUnprocessed(content: Bytes, now: int)
    requires |content| <= MAX_BYTES
    ensures var doc := SampleDocument(content).(unfinished := true);
            var accepted := Some(Accepted(HonestEvidence(SAMPLE_CONFIG, doc, "1", now), now));
            && PlanArchive(SAMPLE_CONFIG, doc, [], accepted, now) == Ready
            && StageOf(SAMPLE_CONFIG, doc, [], accepted, now) == NeedsProcessing
  {
    var doc := SampleDocument(content).(unfinished := true);
    SampleIsEligible(doc, content);
    assert Strip("1") == "1";
    UnprocessedIsReady(SAMPLE_CONFIG, doc, "1", now);
  }
}
