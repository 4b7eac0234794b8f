/**
 * Import of bank statements into the local ledger
 * (src/operations/local_bank_transactions.py over src/operations/local_ledger.py).
 *
 * A row without a bank reference gets the identity "generated:<fingerprint prefix>", followed by its
 * occurrence number within the statement from the second occurrence on. The ledger is keyed by
 * account and identity.
 */
module BankImport {
  import opened Text
  import opened Numbers

  predicate IsHex(c: char) {
    IsDigit(c) || 'a' <= c <= 'f'
  }

  /** A SHA-256 digest in hexadecimal. */
  type Fingerprint = s: string | IsFingerprint(s) witness seq(64, _ => '0')

  predicate IsFingerprint(s: string) {
    |s| == 64 && forall i :: 0 <= i < |s| ==> IsHex(s[i])
  }

  /** What the first reference column that is neither null nor empty holds. */
  datatype Reference =
    | Absent
    | Falsy                // 0, 0.0 or false: not "absent", yet replaced by a generated identity
    | Given(text: string)

  /** A statement row after column lookup; the amount is in cents. */
  datatype RawRow =
    | NotAnObject
    | Row(date: Option<string>, amount: Option<int>, fingerprint: Fingerprint, reference: Reference)

  datatype Key = Key(account: string, transactionId: string)

  datatype Stored = Stored(importId: nat, date: string, amount: int, fingerprint: Fingerprint,
                           generated: bool, reconciliation: string)

  predicate Valid(row: RawRow) {
    row.Row? && row.date.Some? && row.date.value != "" && row.amount.Some?
  }

  /** A row whose reference is blank text makes the ledger raise. */
  predicate Raises(row: RawRow) {
    Valid(row) && row.reference.Given? && Strip(row.reference.text) == ""
  }

  predicate NoneRaises(rows: seq<RawRow>) {
    forall row :: row in rows ==> !Raises(row)
  }

  predicate Counted(row: RawRow, fingerprint: Fingerprint) {
    Valid(row) && row.reference.Absent? && row.fingerprint == fingerprint
  }

  /** How many valid rows without a reference carry this fingerprint. */
  function Multiplicity(rows: seq<RawRow>, fingerprint: Fingerprint): nat {
    if rows == [] then 0
    else Multiplicity(rows[..|rows| - 1], fingerprint) + if Counted(rows[|rows| - 1], fingerprint) then 1 else 0
  }

  function GeneratedId(fingerprint: Fingerprint, occurrence: nat): string {
    "generated:" + fingerprint[..16] + if occurrence > 1 then ":" + Decimal(occurrence) else ""
  }

  /** The identity before occurrences are numbered. */
  function NormalizedId(row: RawRow): string
    requires row.Row?
  {
    if row.reference.Given? then Strip(row.reference.text) else GeneratedId(row.fingerprint, 1)
  }

  /** The identity of `row` when `earlier` are the rows before it in the same statement. */
  function Identity(earlier: seq<RawRow>, row: RawRow): string
    requires Valid(row)
  {
    if row.reference.Absent? then GeneratedId(row.fingerprint, Multiplicity(earlier, row.fingerprint) + 1)
    else NormalizedId(row)
  }

  function Entry(row: RawRow, importId: nat): Stored
    requires Valid(row)
  {
    Stored(importId, row.date.value, row.amount.value, row.fingerprint, row.reference.Absent?, "not_started")
  }

  /** The rows before the first one that makes the ledger raise. */
  function Effective(rows: seq<RawRow>): (r: seq<RawRow>)
    ensures r <= rows && NoneRaises(r)
    ensures r != rows ==> Raises(rows[|r|])
  {
    if rows == [] then []
    else
      var r := Effective(rows[..|rows| - 1]);
      if |r| == |rows| - 1 && !Raises(rows[|rows| - 1]) then rows else r
  }

  lemma EffectiveIs(rows: seq<RawRow>, stop: nat)
    requires stop <= |rows| && NoneRaises(rows[..stop])
    requires stop < |rows| ==> Raises(rows[stop])
    ensures rows[..stop] == Effective(rows)
  {
    var r := Effective(rows);
    assert r == rows[..|r|];
  }

  datatype Tally = Tally(rows: map<Key, Stored>, imported: nat, duplicates: nat, skipped: nat)

  /**
   * The effect of the first rows of a statement. The lookup uses the account as the service
   * normalized it, the upsert strips it once more.
   */
  function Import(before: map<Key, Stored>, account: string, rows: seq<RawRow>, importId: nat): Tally {
    if rows == [] then Tally(before, 0, 0, 0)
    else
      var earlier, row := rows[..|rows| - 1], rows[|rows| - 1];
      ImportRow(Import(before, account, earlier, importId), account, earlier, row, importId)
  }

  function ImportRow(tally: Tally, account: string, earlier: seq<RawRow>, row: RawRow, importId: nat): Tally {
    if !Valid(row) then tally.(skipped := tally.skipped + 1)
    else
      var id := Identity(earlier, row);
      var stored := tally.(rows := tally.rows[Key(Strip(account), id) := Entry(row, importId)]);
      if Key(account, id) in tally.rows then stored.(duplicates := tally.duplicates + 1)
      else stored.(imported := tally.imported + 1)
  }

  /** Reading one more row. */
  lemma ImportNext(before: map<Key, Stored>, account: string, rows: seq<RawRow>, i: nat, importId: nat)
    requires i < |rows|
    ensures Import(before, account, rows[..i + 1], importId)
         == ImportRow(Import(before, account, rows[..i], importId), account, rows[..i], rows[i], importId)
  {
    assert rows[..i + 1][..i] == rows[..i];
  }

  /** Under which account the ledger stores a transaction. */
  function StoredAccount(account: string): string {
    if Strip(account) == "" then "default" else Strip(account)
  }

  lemma GivenAccountIsStripped(account: string)
    requires account != "" && !IsSpace(account[0])
    ensures StoredAccount(account) == Strip(account)
  {
    assert StripLeft(account) == account;
    StripRightKeepsStart(account);
  }

  lemma {:induction false} StripRightKeepsStart(s: string)
    requires s != [] && !IsSpace(s[0])
    ensures StripRight(s) != []
  {
    if IsSpace(s[|s| - 1]) {
      StripRightKeepsStart(s[..|s| - 1]);
    }
  }

  /** `str(x or "default").strip() or "default"`, cut to 200 characters. */
  function NormalizeAccount(text: string): (account: string)
    ensures account != "" && !IsSpace(account[0]) && |account| <= 200
  {
    var stripped := Strip(text);
    var account := if stripped == "" then "default" else stripped;
    if |account| > 200 then account[..200] else account
  }

  // ------------------------------------------------------------------------------------------
  // The importer
  // ------------------------------------------------------------------------------------------

  datatype ImportStatus = Running | Completed | Empty

  datatype ImportRecord = ImportRecord(account: string, status: ImportStatus, rowsSeen: nat,
                                       rowsImported: nat, duplicates: nat, skippedCount: nat)

  datatype Outcome = Success(summary: ImportRecord) | BlankTransactionId

  class LocalLedger {
    var transactions: map<Key, Stored>
    var imports: seq<ImportRecord>

    constructor ()
      ensures transactions == map[] && imports == []
    {
      transactions, imports := map[], [];
    }

    /** Insert or overwrite by identity; a blank account is the default one, a blank identity is refused. */
    method UpsertBankTransaction(account: string, transactionId: string, entry: Stored) returns (ok: bool)
      modifies this`transactions
      ensures ok == (Strip(transactionId) != "")
      ensures transactions == if ok then old(transactions)[Key(StoredAccount(account), Strip(transactionId)) := entry]
                              else old(transactions)
    {
      var id := Strip(transactionId);
      ok := id != "";
      if ok {
        transactions := transactions[Key(StoredAccount(account), id) := entry];
      }
    }

    /** The same for an account that is given, as a normalized one is. */
    method UpsertGiven(account: string, transactionId: string, entry: Stored) returns (ok: bool)
      requires account != "" && !IsSpace(account[0])
      modifies this`transactions
      ensures ok == (Strip(transactionId) != "")
      ensures transactions == if ok then old(transactions)[Key(Strip(account), Strip(transactionId)) := entry]
                              else old(transactions)
    {
      GivenAccountIsStripped(account);
      ok := UpsertBankTransaction(account, transactionId, entry);
    }

    /** Number a row without a reference among the rows of its fingerprint. */
    static method AssignIdentity(rows: seq<RawRow>, index: nat, seen: map<Fingerprint, nat>)
      returns (id: string, occurrences: map<Fingerprint, nat>)
      requires index < |rows| && Valid(rows[index]) && Counts(seen, rows[..index])
      ensures id == Identity(rows[..index], rows[index])
      ensures Counts(occurrences, rows[..index + 1])
    {
      var row := rows[index];
      id, occurrences := NormalizedId(row), seen;
      CountNext(seen, rows, index);
      if row.reference.Absent? {
        var occurrence := Occurrences(seen, row.fingerprint) + 1;
        occurrences := seen[row.fingerprint := occurrence];
        if occurrence > 1 {
          id := id + ":" + Decimal(occurrence);
        }
        NumberedId(row.fingerprint, occurrence);
      }
    }

    /**
     * A statement without a raising row is imported whole and its record closed. Otherwise the rows
     * before the first raising one stay in the ledger and the record stays `Running`.
     */
    method ImportTransactions(rows: seq<RawRow>, accountText: string) returns (outcome: Outcome)
      modifies this
      ensures outcome.Success? <==> forall row :: row in rows ==> !Raises(row)
      ensures var account := NormalizeAccount(accountText);
              var tally := Import(old(transactions), account, Effective(rows), |old(imports)|);
              && transactions == tally.rows
              && imports == old(imports) + [
                   if outcome.Success? then outcome.summary else ImportRecord(account, Running, |rows|, 0, 0, 0)]
              && (outcome.Success? ==> outcome.summary == ImportRecord(account,
                    if tally.imported + tally.duplicates > 0 then Completed else Empty,
                    |rows|, tally.imported, tally.duplicates, tally.skipped))
    {
      var account := NormalizeAccount(accountText);
      var importId := |imports|;
      imports := imports + [ImportRecord(account, Running, |rows|, 0, 0, 0)];
      var imported, duplicates, skipped := 0, 0, 0;
      var occurrences: map<Fingerprint, nat> := map[];
      var index := 0;
      while index < |rows|
        invariant 0 <= index <= |rows|
        invariant imports == old(imports) + [ImportRecord(account, Running, |rows|, 0, 0, 0)]
        invariant importId == |old(imports)|
        invariant NoneRaises(rows[..index])
        invariant Counts(occurrences, rows[..index])
        invariant Import(old(transactions), account, rows[..index], importId)
               == Tally(transactions, imported, duplicates, skipped)
      {
        var row := rows[index];
        ImportNext(old(transactions), account, rows, index, importId);
        if !Valid(row) {
          CountNext(occurrences, rows, index);
          skipped := skipped + 1;
        } else {
          var id;
          id, occurrences := AssignIdentity(rows, index, occurrences);
          IdentityIsStripped(rows[..index], row);
          var existing := Key(account, id) in transactions;
          var ok := UpsertGiven(account, id, Entry(row, importId));
          if !ok {
            EffectiveIs(rows, index);
            return BlankTransactionId;
          }
          if existing {
            duplicates := duplicates + 1;
          } else {
            imported := imported + 1;
          }
        }
        index := index + 1;
      }
      assert rows[..|rows|] == rows;
      EffectiveIs(rows, |rows|);
      var status := if imported > 0 || duplicates > 0 then Completed else Empty;
      var summary := ImportRecord(account, status, |rows|, imported, duplicates, skipped);
      imports := imports[importId := summary];
      outcome := Success(summary);
    }
  }

  // ------------------------------------------------------------------------------------------
  // Identities
  // ------------------------------------------------------------------------------------------

  /** Identities carry no surrounding space, and only a raising row has a blank one. */
  lemma IdentityIsStripped(earlier: seq<RawRow>, row: RawRow)
    requires Valid(row)
    ensures Strip(Identity(earlier, row)) == Identity(earlier, row)
    ensures Identity(earlier, row) == "" <==> Raises(row)
  {
    if row.reference.Given? {
      StripIdempotent(row.reference.text);
    } else {
      var id := Identity(earlier, row);
      assert IsHex(row.fingerprint[15]);
      assert id[0] == 'g' && (IsHex(id[|id| - 1]));
    }
  }

  /** The occurrence number and the fingerprint prefix can be read back from a generated identity. */
  lemma GeneratedIdInjective(f: Fingerprint, m: nat, g: Fingerprint, n: nat)
    requires m >= 1 && n >= 1
    requires GeneratedId(f, m) == GeneratedId(g, n)
    ensures f[..16] == g[..16] && m == n
  {
    var a, b := GeneratedId(f, m), GeneratedId(g, n);
    assert a[10..26] == f[..16] && b[10..26] == g[..16];
    assert m > 1 ==> a[27..] == Decimal(m);
    assert n > 1 ==> b[27..] == Decimal(n);
    DecimalRoundTrip(m);
    DecimalRoundTrip(n);
  }

  lemma {:induction false} MultiplicityGrows(rows: seq<RawRow>, i: nat, f: Fingerprint)
    requires i <= |rows|
    ensures Multiplicity(rows[..i], f) <= Multiplicity(rows, f)
    decreases |rows|
  {
    if i < |rows| {
      assert rows[..|rows| - 1][..i] == rows[..i];
      MultiplicityGrows(rows[..|rows| - 1], i, f);
    } else {
      assert rows[..i] == rows;
    }
  }

  /** Every occurrence number up to the multiplicity is handed out. */
  lemma {:induction false} OccurrenceExists(rows: seq<RawRow>, f: Fingerprint, k: nat) returns (i: nat)
    requires 1 <= k <= Multiplicity(rows, f)
    ensures i < |rows| && Counted(rows[i], f) && Multiplicity(rows[..i], f) + 1 == k
  {
    var n := |rows| - 1;
    if Counted(rows[n], f) && k == Multiplicity(rows, f) {
      i := n;
    } else {
      i := OccurrenceExists(rows[..n], f, k);
      assert rows[..n][..i] == rows[..i];
    }
  }

  /** The identities a statement touches. */
  ghost function Identities(rows: seq<RawRow>): set<string> {
    set i | 0 <= i < |rows| && Valid(rows[i]) :: Identity(rows[..i], rows[i])
  }

  ghost predicate ByReference(rows: seq<RawRow>, id: string) {
    exists row :: row in rows && Valid(row) && !row.reference.Absent? && Identity([], row) == id
  }

  ghost predicate ByOccurrence(rows: seq<RawRow>, id: string) {
    exists f: Fingerprint, k: nat :: 1 <= k <= Multiplicity(rows, f) && GeneratedId(f, k) == id
  }

  /** The occurrence dictionary holds the multiplicities of the rows read so far. */
  ghost predicate Counts(occurrences: map<Fingerprint, nat>, rows: seq<RawRow>) {
    forall f :: Multiplicity(rows, f) == Occurrences(occurrences, f)
  }

  function Occurrences(occurrences: map<Fingerprint, nat>, f: Fingerprint): nat {
    if f in occurrences then occurrences[f] else 0
  }

  lemma CountNext(occurrences: map<Fingerprint, nat>, rows: seq<RawRow>, i: nat)
    requires i < |rows| && Counts(occurrences, rows[..i])
    ensures var row := rows[i];
            Counts(if Valid(row) && row.reference.Absent?
                   then occurrences[row.fingerprint := Occurrences(occurrences, row.fingerprint) + 1]
                   else occurrences, rows[..i + 1])
  {
    var row := rows[i];
    var next := if Valid(row) && row.reference.Absent?
                then occurrences[row.fingerprint := Occurrences(occurrences, row.fingerprint) + 1]
                else occurrences;
    assert rows[..i + 1][..i] == rows[..i];
    forall f: Fingerprint ensures Multiplicity(rows[..i + 1], f) == Occurrences(next, f) {
      assert Multiplicity(rows[..i], f) == Occurrences(occurrences, f);
    }
  }

  lemma NumberedId(f: Fingerprint, occurrence: nat)
    requires occurrence >= 1
    ensures GeneratedId(f, occurrence)
         == if occurrence > 1 then GeneratedId(f, 1) + ":" + Decimal(occurrence) else GeneratedId(f, 1)
  {
    assert "generated:" + f[..16] + "" == "generated:" + f[..16];
  }

  /** Exactly which identities a statement touches, whatever its rows. */
  lemma IdentitiesExactly(rows: seq<RawRow>, id: string)
    ensures id in Identities(rows) <==> ByReference(rows, id) || ByOccurrence(rows, id)
  {
    if id in Identities(rows) {
      var i :| 0 <= i < |rows| && Valid(rows[i]) && Identity(rows[..i], rows[i]) == id;
      var row := rows[i];
      if row.reference.Absent? {
        assert rows[..i + 1][..i] == rows[..i];
        MultiplicityGrows(rows, i + 1, row.fingerprint);
        assert GeneratedId(row.fingerprint, Multiplicity(rows[..i + 1], row.fingerprint)) == id;
      } else {
        assert row in rows && Identity([], row) == id;
      }
    }
    if ByReference(rows, id) {
      var row :| row in rows && Valid(row) && !row.reference.Absent? && Identity([], row) == id;
      var i :| 0 <= i < |rows| && rows[i] == row;
      assert Identity(rows[..i], rows[i]) == id;
    }
    if ByOccurrence(rows, id) {
      var f: Fingerprint, k: nat :| 1 <= k <= Multiplicity(rows, f) && GeneratedId(f, k) == id;
      var i := OccurrenceExists(rows, f, k);
      assert Identity(rows[..i], rows[i]) == id;
    }
  }

  lemma {:induction false} MultiplicityOfConcat(a: seq<RawRow>, b: seq<RawRow>, f: Fingerprint)
    ensures Multiplicity(a + b, f) == Multiplicity(a, f) + Multiplicity(b, f)
  {
    if b == [] {
      assert a + b == a;
    } else {
      assert (a + b)[..|a + b| - 1] == a + b[..|b| - 1];
      MultiplicityOfConcat(a, b[..|b| - 1], f);
    }
  }

  /** Taking one row out of the statement takes its own count out. */
  lemma MultiplicityWithout(front: seq<RawRow>, row: RawRow, back: seq<RawRow>, f: Fingerprint)
    ensures Multiplicity(front + [row] + back, f) == Multiplicity(front + back, f) + Multiplicity([row], f)
  {
    MultiplicityOfConcat(front + [row], back, f);
    MultiplicityOfConcat(front, [row], f);
    MultiplicityOfConcat(front, back, f);
  }

  lemma RowIsThere(row: RawRow, b: seq<RawRow>) returns (front: seq<RawRow>, back: seq<RawRow>)
    requires row in multiset(b)
    ensures b == front + [row] + back && multiset(front + back) == multiset(b) - multiset{row}
  {
    var j :| 0 <= j < |b| && b[j] == row;
    front, back := b[..j], b[j + 1..];
    assert b == front + [row] + back;
  }

  lemma {:induction false} MultiplicityIgnoresOrder(a: seq<RawRow>, b: seq<RawRow>, f: Fingerprint)
    requires multiset(a) == multiset(b)
    ensures Multiplicity(a, f) == Multiplicity(b, f)
    decreases |a|
  {
    if a == [] {
      assert |multiset(b)| == 0;
    } else {
      var init, last := a[..|a| - 1], a[|a| - 1];
      assert a == init + [last];
      var front, back := RowIsThere(last, b);
      assert multiset(init) == multiset(a) - multiset{last};
      MultiplicityIgnoresOrder(init, front + back, f);
      MultiplicityWithout(front, last, back, f);
      MultiplicityOfConcat(init, [last], f);
    }
  }

  /** The identities a statement produces do not depend on the order of its rows. */
  lemma IdentitiesIgnoreOrder(a: seq<RawRow>, b: seq<RawRow>)
    requires multiset(a) == multiset(b)
    ensures Identities(a) == Identities(b)
  {
    forall id ensures id in Identities(a) <==> id in Identities(b) {
      IdentitiesExactly(a, id);
      IdentitiesExactly(b, id);
      forall f: Fingerprint ensures Multiplicity(a, f) == Multiplicity(b, f) {
        MultiplicityIgnoresOrder(a, b, f);
      }
      assert forall row :: row in a <==> row in multiset(a);
      assert forall row :: row in b <==> row in multiset(b);
    }
  }

  // ------------------------------------------------------------------------------------------
  // Conservation and re-import
  // ------------------------------------------------------------------------------------------

  function KeysOf(account: string, ids: set<string>): set<Key> {
    set id | id in ids :: Key(Strip(account), id)
  }

  lemma IdentitiesNext(rows: seq<RawRow>)
    requires rows != []
    ensures var n := |rows| - 1;
            Identities(rows) == Identities(rows[..n]) + if Valid(rows[n]) then {Identity(rows[..n], rows[n])} else {}
  {
    var n := |rows| - 1;
    assert forall i :: 0 <= i < n ==> rows[..n][..i] == rows[..i];
  }

  /** The ledger gains exactly the identities of the statement. */
  lemma {:induction false} ImportKeys(before: map<Key, Stored>, account: string, rows: seq<RawRow>, importId: nat)
    ensures Import(before, account, rows, importId).rows.Keys == before.Keys + KeysOf(account, Identities(rows))
  {
    if rows != [] {
      ImportKeys(before, account, rows[..|rows| - 1], importId);
      IdentitiesNext(rows);
    }
  }

  function Rejected(rows: seq<RawRow>): set<nat> {
    set i: nat | i < |rows| && !Valid(rows[i])
  }

  lemma RejectedNext(rows: seq<RawRow>)
    requires rows != []
    ensures |Rejected(rows)| == |Rejected(rows[..|rows| - 1])| + if Valid(rows[|rows| - 1]) then 0 else 1
  {
    var n := |rows| - 1;
    assert Rejected(rows) == Rejected(rows[..n]) + if Valid(rows[n]) then {} else {n};
  }

  /** Every row is counted once; with an account the ledger stores as is, the key set grows by `imported`. */
  lemma {:induction false} Conservation(before: map<Key, Stored>, account: string, rows: seq<RawRow>, importId: nat)
    ensures var t := Import(before, account, rows, importId);
            && t.imported + t.duplicates + t.skipped == |rows|
            && t.skipped == |Rejected(rows)|
            && (Strip(account) == account ==> |t.rows| == |before| + t.imported)
  {
    if rows != [] {
      var n := |rows| - 1;
      Conservation(before, account, rows[..n], importId);
      RejectedNext(rows);
    }
  }

  /** The ledger only ever stores stripped accounts. */
  ghost predicate Stripped(rows: map<Key, Stored>) {
    forall key :: key in rows ==> Strip(key.account) == key.account
  }

  lemma {:induction false} ImportKeepsStripped(before: map<Key, Stored>, account: string, rows: seq<RawRow>,
                                               importId: nat)
    requires Stripped(before)
    ensures Stripped(Import(before, account, rows, importId).rows)
    ensures Strip(account) != account ==> Import(before, account, rows, importId).duplicates == 0
  {
    if rows != [] {
      ImportKeepsStripped(before, account, rows[..|rows| - 1], importId);
      StripIdempotent(account);
    }
  }

  lemma {:induction false} KnownRowsAreDuplicates(before: map<Key, Stored>, account: string, rows: seq<RawRow>,
                                                  importId: nat)
    requires KeysOf(account, Identities(rows)) <= before.Keys && Strip(account) == account
    ensures Import(before, account, rows, importId).imported == 0
    ensures Import(before, account, rows, importId).rows.Keys == before.Keys
  {
    if rows != [] {
      IdentitiesNext(rows);
      KnownRowsAreDuplicates(before, account, rows[..|rows| - 1], importId);
      assert Valid(rows[|rows| - 1]) ==> Key(account, Identity(rows[..|rows| - 1], rows[|rows| - 1])) in before;
    }
  }

  /**
   * Importing a statement again adds no key. It also reports no new row, unless the account was cut
   * at 200 characters just behind a space: then the lookup misses every stored row.
   */
  lemma Reimport(before: map<Key, Stored>, account: string, rows: seq<RawRow>, first: nat, second: nat)
    requires Stripped(before)
    ensures var once := Import(before, account, rows, first).rows;
            var again := Import(once, account, rows, second);
            && again.rows.Keys == once.Keys
            && (again.imported == 0 <==> Strip(account) == account || |Rejected(rows)| == |rows|)
  {
    var once := Import(before, account, rows, first).rows;
    var again := Import(once, account, rows, second);
    ImportKeys(before, account, rows, first);
    ImportKeys(once, account, rows, second);
    Conservation(once, account, rows, second);
    ImportKeepsStripped(before, account, rows, first);
    ImportKeepsStripped(once, account, rows, second);
    if Strip(account) == account {
      KnownRowsAreDuplicates(once, account, rows, second);
    }
  }

  /** Such an account exists: 199 letters, a space and one more letter. */
  lemma UnstableAccountExists()
    ensures var account := NormalizeAccount(seq(199, _ => 'a') + " b"); Strip(account) != account
  {
    var text := seq(199, _ => 'a') + " b";
    assert !IsSpace(text[0]) && !IsSpace(text[|text| - 1]);
    var account := NormalizeAccount(text);
    assert account == text[..200] && IsSpace(account[199]);
  }

  /** An upsert starts the reconciliation over, also for a transaction that was already approved. */
  lemma {:induction false} ReimportForgetsReconciliation(before: map<Key, Stored>, account: string,
                                                         rows: seq<RawRow>, importId: nat, key: Key)
    ensures var after := Import(before, account, rows, importId).rows;
            if key in KeysOf(account, Identities(rows))
            then key in after && after[key].importId == importId && after[key].reconciliation == "not_started"
            else (key in after <==> key in before) && (key in before ==> after[key] == before[key])
  {
    if rows != [] {
      ReimportForgetsReconciliation(before, account, rows[..|rows| - 1], importId, key);
      IdentitiesNext(rows);
    }
  }

  // ------------------------------------------------------------------------------------------
  // Overlapping statements: nothing lost, nothing doubled
  // ------------------------------------------------------------------------------------------

  datatype Statement = Statement(account: string, rows: seq<RawRow>)

  /** The ledger after any number of imports, aborted ones included. */
  function Ledger(history: seq<Statement>): map<Key, Stored> {
    if history == [] then map[]
    else
      var n := |history| - 1;
      Import(Ledger(history[..n]), history[n].account, Effective(history[n].rows), n).rows
  }

  /** The largest multiplicity of the fingerprint in any one statement of the account. */
  function MaxMultiplicity(history: seq<Statement>, account: string, f: Fingerprint): (max: nat)
    ensures forall h :: h in history && Strip(h.account) == account ==> Multiplicity(Effective(h.rows), f) <= max
    ensures max > 0 ==> exists h :: h in history && Strip(h.account) == account
                                 && Multiplicity(Effective(h.rows), f) == max
  {
    if history == [] then 0
    else
      var n := |history| - 1;
      assert history == history[..n] + [history[n]];
      var max := MaxMultiplicity(history[..n], account, f);
      if Strip(history[n].account) == account then Max(max, Multiplicity(Effective(history[n].rows), f)) else max
  }

  /** References are truthy and outside the generated namespace, and no other digest shares the prefix. */
  ghost predicate Plain(row: RawRow, f: Fingerprint) {
    Valid(row) ==>
      && !row.reference.Falsy?
      && (row.reference.Given? ==> !("generated:" <= Strip(row.reference.text)))
      && (row.fingerprint[..16] == f[..16] ==> row.fingerprint == f)
  }

  ghost predicate PlainRows(rows: seq<RawRow>, f: Fingerprint) {
    forall row :: row in rows ==> Plain(row, f)
  }

  ghost predicate IsStored(rows: map<Key, Stored>, f: Fingerprint, key: Key) {
    key in rows && rows[key].generated && rows[key].fingerprint == f
  }

  /** The account holds the occurrences 1 to `count` of the fingerprint and no other row with it. */
  ghost predicate Holds(rows: map<Key, Stored>, account: string, f: Fingerprint, count: nat) {
    && (forall k :: 1 <= k <= count ==> IsStored(rows, f, Key(account, GeneratedId(f, k))))
    && (forall key: Key :: key.account == account && IsStored(rows, f, key) ==>
          exists k :: 1 <= k <= count && key.transactionId == GeneratedId(f, k))
  }

  lemma {:induction false} ImportHolds(before: map<Key, Stored>, account: string, rows: seq<RawRow>, importId: nat,
                                       of: string, f: Fingerprint, count: nat)
    requires PlainRows(rows, f) && Holds(before, of, f, count)
    ensures Holds(Import(before, account, rows, importId).rows, of, f,
                  if Strip(account) == of then Max(count, Multiplicity(rows, f)) else count)
  {
    if rows != [] {
      var n := |rows| - 1;
      var earlier, row := rows[..n], rows[n];
      ImportHolds(before, account, earlier, importId, of, f, count);
      var t := Import(before, account, earlier, importId).rows;
      var held := if Strip(account) == of then Max(count, Multiplicity(earlier, f)) else count;
      if Valid(row) && Strip(account) == of {
        StoreHolds(t, of, f, held, earlier, row, importId);
      }
    }
  }

  lemma StoreHolds(rows: map<Key, Stored>, of: string, f: Fingerprint, held: nat,
                   earlier: seq<RawRow>, row: RawRow, importId: nat)
    requires Valid(row) && Plain(row, f) && Holds(rows, of, f, held) && Multiplicity(earlier, f) <= held
    ensures Holds(rows[Key(of, Identity(earlier, row)) := Entry(row, importId)], of, f,
                  if Counted(row, f) then Max(held, Multiplicity(earlier, f) + 1) else held)
  {
    var entry := Entry(row, importId);
    if Counted(row, f) {
      StoreNext(rows, of, f, held, Multiplicity(earlier, f) + 1, entry);
    } else {
      OtherIdentity(earlier, row, f, held);
      StoreOther(rows, of, f, held, Identity(earlier, row), entry);
    }
  }

  lemma StoreNext(rows: map<Key, Stored>, of: string, f: Fingerprint, held: nat, k: nat, entry: Stored)
    requires Holds(rows, of, f, held) && 1 <= k <= held + 1 && entry.generated && entry.fingerprint == f
    ensures Holds(rows[Key(of, GeneratedId(f, k)) := entry], of, f, Max(held, k))
  {
    var after := rows[Key(of, GeneratedId(f, k)) := entry];
    forall j | 1 <= j <= Max(held, k) ensures IsStored(after, f, Key(of, GeneratedId(f, j))) {
      assert j == k || IsStored(rows, f, Key(of, GeneratedId(f, j)));
    }
    forall key: Key | key.account == of && IsStored(after, f, key)
      ensures exists j :: 1 <= j <= Max(held, k) && key.transactionId == GeneratedId(f, j)
    {
      assert key.transactionId == GeneratedId(f, k) || IsStored(rows, f, key);
    }
  }

  lemma StoreOther(rows: map<Key, Stored>, of: string, f: Fingerprint, held: nat, id: string, entry: Stored)
    requires Holds(rows, of, f, held) && !(entry.generated && entry.fingerprint == f)
    requires forall k :: 1 <= k <= held ==> id != GeneratedId(f, k)
    ensures Holds(rows[Key(of, id) := entry], of, f, held)
  {
    var after := rows[Key(of, id) := entry];
    forall k | 1 <= k <= held ensures IsStored(after, f, Key(of, GeneratedId(f, k))) {
      assert IsStored(rows, f, Key(of, GeneratedId(f, k)));
    }
    forall key: Key | key.account == of && IsStored(after, f, key)
      ensures exists j :: 1 <= j <= held && key.transactionId == GeneratedId(f, j)
    {
      assert IsStored(rows, f, key);
    }
  }

  /** A plain row of another transaction never takes an identity of this one. */
  lemma OtherIdentity(earlier: seq<RawRow>, row: RawRow, f: Fingerprint, held: nat)
    requires Valid(row) && Plain(row, f) && !Counted(row, f)
    ensures forall k :: 1 <= k <= held ==> Identity(earlier, row) != GeneratedId(f, k)
  {
    forall k | 1 <= k <= held ensures Identity(earlier, row) != GeneratedId(f, k) {
      if row.reference.Absent? {
        if Identity(earlier, row) == GeneratedId(f, k) {
          GeneratedIdInjective(row.fingerprint, Multiplicity(earlier, row.fingerprint) + 1, f, k);
        }
      } else {
        assert "generated:" <= GeneratedId(f, k);
      }
    }
  }

  lemma {:induction false} LedgerHolds(history: seq<Statement>, account: string, f: Fingerprint)
    requires forall h :: h in history ==> PlainRows(h.rows, f)
    ensures Holds(Ledger(history), account, f, MaxMultiplicity(history, account, f))
  {
    if history != [] {
      var n := |history| - 1;
      LedgerHolds(history[..n], account, f);
      assert history[n] in history;
      ImportHolds(Ledger(history[..n]), history[n].account, Effective(history[n].rows), n, account, f,
                  MaxMultiplicity(history[..n], account, f));
    }
  }

  lemma {:induction false} OccurrenceKeys(account: string, f: Fingerprint, n: nat) returns (keys: set<Key>)
    ensures keys == set k | 1 <= k <= n :: Key(account, GeneratedId(f, k))
    ensures |keys| == n
  {
    if n == 0 {
      keys := {};
    } else {
      var rest := OccurrenceKeys(account, f, n - 1);
      var last := Key(account, GeneratedId(f, n));
      if last in rest {
        var k :| 1 <= k <= n - 1 && last == Key(account, GeneratedId(f, k));
        GeneratedIdInjective(f, n, f, k);
      }
      keys := rest + {last};
    }
  }

  /**
   * Over any sequence of overlapping statements the account stores a reference-less transaction as
   * often as the one statement that lists it most often: never the sum, never less.
   */
  lemma StoredIsMaximum(history: seq<Statement>, account: string, f: Fingerprint)
    requires forall h :: h in history ==> PlainRows(h.rows, f)
    ensures var ledger := Ledger(history);
            |set key | key in ledger && key.account == account && IsStored(ledger, f, key)|
            == MaxMultiplicity(history, account, f)
  {
    var ledger, max := Ledger(history), MaxMultiplicity(history, account, f);
    LedgerHolds(history, account, f);
    var keys := OccurrenceKeys(account, f, max);
    assert keys == set key | key in ledger && key.account == account && IsStored(ledger, f, key);
  }

  // ------------------------------------------------------------------------------------------
  // When a single statement loses rows
  // ------------------------------------------------------------------------------------------

  ghost predicate Collides(rows: seq<RawRow>, i: nat, j: nat) {
    && i < j < |rows| && Valid(rows[i]) && Valid(rows[j])
    && Identity(rows[..i], rows[i]) == Identity(rows[..j], rows[j])
  }

  lemma {:induction false} NoDuplicateWithoutCollision(account: string, rows: seq<RawRow>, importId: nat)
    requires Strip(account) == account
    ensures Import(map[], account, rows, importId).duplicates == 0 <==> forall i, j :: !Collides(rows, i, j)
  {
    if rows != [] {
      var n := |rows| - 1;
      NoDuplicateWithoutCollision(account, rows[..n], importId);
      ImportKeys(map[], account, rows[..n], importId);
      forall i: nat, j: nat | j < n ensures Collides(rows, i, j) <==> Collides(rows[..n], i, j) {
        if i < j {
          assert rows[..n][..i] == rows[..i] && rows[..n][..j] == rows[..j];
        }
      }
      assert forall i :: 0 <= i < n ==> rows[..n][..i] == rows[..i];
      if Valid(rows[n]) {
        var id := Identity(rows[..n], rows[n]);
        assert Key(account, id) in KeysOf(account, Identities(rows[..n])) <==> id in Identities(rows[..n]);
        if id in Identities(rows[..n]) {
          var i :| 0 <= i < n && Valid(rows[i]) && Identity(rows[..n][..i], rows[i]) == id;
          assert Collides(rows, i, n);
        }
        if i: nat :| Collides(rows, i, n) {
          assert Identity(rows[..n][..i], rows[..n][i]) == id;
        }
      }
    }
  }

  /** Two valid rows of the same transaction without a usable reference, one of them with a falsy one. */
  predicate Mixed(rows: seq<RawRow>, i: nat, j: nat) {
    && i < j < |rows| && Valid(rows[i]) && Valid(rows[j]) && rows[i].fingerprint == rows[j].fingerprint
    && !rows[i].reference.Given? && !rows[j].reference.Given?
    && (rows[i].reference.Falsy? || rows[j].reference.Falsy?)
  }

  /** Two valid rows whose references differ at most in surrounding space. */
  predicate SharesReference(rows: seq<RawRow>, i: nat, j: nat) {
    && i < j < |rows| && Valid(rows[i]) && Valid(rows[j])
    && rows[i].reference.Given? && rows[j].reference.Given?
    && Strip(rows[i].reference.text) == Strip(rows[j].reference.text)
  }

  /** Among the rows without a usable reference the 16 digits of an identity tell transactions apart. */
  ghost predicate DistinctPrefixes(rows: seq<RawRow>) {
    forall a, b | && a in rows && b in rows && Valid(a) && Valid(b) && !a.reference.Given? && !b.reference.Given?
                  && a.fingerprint[..16] == b.fingerprint[..16] ::
      a.fingerprint == b.fingerprint
  }

  /** No bank writes references in the form of generated identities. */
  ghost predicate ForeignReferences(rows: seq<RawRow>) {
    forall row | row in rows && Valid(row) && row.reference.Given? :: !("generated:" <= Strip(row.reference.text))
  }

  /**
   * A statement is stored row by row exactly when no transaction that has a row with a falsy reference
   * has a second row without a usable one, and no two rows share a reference.
   */
  lemma EveryRowStoredIff(account: string, rows: seq<RawRow>, importId: nat)
    requires Strip(account) == account && DistinctPrefixes(rows) && ForeignReferences(rows)
    ensures Import(map[], account, rows, importId).duplicates == 0
       <==> forall i, j :: !Mixed(rows, i, j) && !SharesReference(rows, i, j)
  {
    NoDuplicateWithoutCollision(account, rows, importId);
    if i: nat, j: nat :| Collides(rows, i, j) {
      CollisionHasReason(rows, i, j);
    }
    if i: nat, j: nat :| Mixed(rows, i, j) {
      var _, _ := MixedCollides(rows, i, j);
    } else if i: nat, j: nat :| SharesReference(rows, i, j) {
      assert Collides(rows, i, j);
    }
  }

  lemma GeneratedIffNotGiven(rows: seq<RawRow>, i: nat)
    requires i < |rows| && Valid(rows[i]) && ForeignReferences(rows)
    ensures "generated:" <= Identity(rows[..i], rows[i]) <==> !rows[i].reference.Given?
  {
  }

  lemma CollisionHasReason(rows: seq<RawRow>, i: nat, j: nat)
    requires Collides(rows, i, j) && DistinctPrefixes(rows) && ForeignReferences(rows)
    ensures Mixed(rows, i, j) || SharesReference(rows, i, j)
  {
    GeneratedIffNotGiven(rows, i);
    GeneratedIffNotGiven(rows, j);
    if !rows[i].reference.Given? {
      CollisionIsMixed(rows, i, j);
    }
  }

  lemma CollisionIsMixed(rows: seq<RawRow>, i: nat, j: nat)
    requires Collides(rows, i, j) && !rows[i].reference.Given? && !rows[j].reference.Given?
    requires rows[i].fingerprint[..16] == rows[j].fingerprint[..16] ==> rows[i].fingerprint == rows[j].fingerprint
    ensures Mixed(rows, i, j)
  {
    var f, g := rows[i].fingerprint, rows[j].fingerprint;
    var k := if rows[i].reference.Absent? then Multiplicity(rows[..i], f) + 1 else 1;
    var m := if rows[j].reference.Absent? then Multiplicity(rows[..j], g) + 1 else 1;
    GeneratedIdInjective(f, k, g, m);
    if rows[i].reference.Absent? {
      assert rows[..j][..i + 1] == rows[..i + 1] && rows[..i + 1][..i] == rows[..i];
      MultiplicityGrows(rows[..j], i + 1, f);
    }
  }

  lemma MixedCollides(rows: seq<RawRow>, i: nat, j: nat) returns (a: nat, b: nat)
    requires Mixed(rows, i, j)
    ensures Collides(rows, a, b)
  {
    if rows[i].reference.Falsy? && rows[j].reference.Falsy? {
      a, b := i, j;
    } else {
      var falsy, counted := if rows[i].reference.Falsy? then i else j, if rows[i].reference.Falsy? then j else i;
      var f := rows[counted].fingerprint;
      assert rows[..counted + 1][..counted] == rows[..counted];
      MultiplicityGrows(rows, counted + 1, f);
      var first := OccurrenceExists(rows, f, 1);
      a, b := if first < falsy then first else falsy, if first < falsy then falsy else first;
    }
  }

  /** Two identical rows with reference 0: one transaction is stored, one is reported as a duplicate. */
  lemma FalsyReferenceLosesRow(f: Fingerprint, importId: nat)
    ensures var row := Row(Some("2026-01-02"), Some(-500), f, Falsy);
            var t := Import(map[], "default", [row, row], importId);
            |t.rows| == 1 && t.imported == 1 && t.duplicates == 1
  {
    var row := Row(Some("2026-01-02"), Some(-500), f, Falsy);
    assert [row, row][..1] == [row] && [row][..0] == [];
    Conservation(map[], "default", [row, row], importId);
    assert Key("default", GeneratedId(f, 1)) in Import(map[], "default", [row], importId).rows;
  }
}
