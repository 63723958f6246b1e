/**
The synchronised part of the wallet database and the way one copy of it imports another.

Every table is a finite map (or a set of pairs) keyed as in the schema. Rows are opaque text;
`swaps_fees` and `payments_metadata` also carry the timestamp that decides between two versions.
*/
module SyncTables {

  type Key = string
  type Row = string

  datatype Stamped = Stamped(at: nat, row: Row)

  datatype SyncDb = SyncDb(
    swaps: map<Key, Row>,
    refunds: set<(Key, Key)>,
    external: map<Key, Row>,
    metadata: map<Key, Stamped>,
    reverseSwaps: map<Key, Row>,
    fees: map<Key, Stamped>
  )

  const EMPTY_DB := SyncDb(map[], {}, map[], map[], map[], map[])

  /**
  Names one record of one table, whatever its row holds. A record of a timestamped table also names an
  age: it stands for a row that is at least that young, and age 0 for any row.
  */
  datatype Record =
    | SwapRec(key: Key)
    | RefundRec(key: Key, txid: Key)
    | ExternalRec(key: Key)
    | ReverseRec(key: Key)
    | FeeRec(key: Key, since: nat)
    | MetadataRec(key: Key, since: nat)

  predicate Has(db: SyncDb, r: Record) {
    match r
    case SwapRec(k) => k in db.swaps
    case RefundRec(k, t) => (k, t) in db.refunds
    case ExternalRec(k) => k in db.external
    case ReverseRec(k) => k in db.reverseSwaps
    case FeeRec(k, t) => k in db.fees && db.fees[k].at >= t
    case MetadataRec(k, t) => k in db.metadata && db.metadata[k].at >= t
  }

  /** What a statement is about: whether payment metadata counts, and whether the age of rows does. */
  datatype Scope = Scope(metadata: bool, times: bool)

  /** All tables but payment metadata, whatever the age of the rows. */
  const RECORDS := Scope(false, false)

  predicate In(scope: Scope, r: Record) {
    && (r.MetadataRec? ==> scope.metadata)
    && ((r.FeeRec? || r.MetadataRec?) && r.since > 0 ==> scope.times)
  }

  /** `big` holds every record of `small` that is in scope. */
  ghost predicate Covers(scope: Scope, big: SyncDb, small: SyncDb) {
    forall r :: Has(small, r) && In(scope, r) ==> Has(big, r)
  }

  /** Rows are copied for absent keys only; a row that is already there is kept. */
  function InsertMissing(mine: map<Key, Row>, theirs: map<Key, Row>): map<Key, Row> {
    theirs + mine
  }

  /** `swaps_fees`: a missing row is inserted, a present one is replaced by a strictly newer one. */
  function InsertNewer(mine: map<Key, Stamped>, theirs: map<Key, Stamped>): map<Key, Stamped> {
    map k | k in mine.Keys + theirs.Keys ::
      if k !in mine || (k in theirs && theirs[k].at > mine[k].at) then theirs[k] else mine[k]
  }

  /** `payments_metadata`: the comparison with a missing local row is never true, so such rows are skipped. */
  function ReplaceNewer(mine: map<Key, Stamped>, theirs: map<Key, Stamped>): map<Key, Stamped> {
    map k | k in mine ::
      if k in theirs && theirs[k].at > mine[k].at then theirs[k] else mine[k]
  }

  function ImportRemoteChanges(mine: SyncDb, theirs: SyncDb): SyncDb {
    SyncDb(
      InsertMissing(mine.swaps, theirs.swaps),
      mine.refunds + theirs.refunds,
      InsertMissing(mine.external, theirs.external),
      ReplaceNewer(mine.metadata, theirs.metadata),
      InsertMissing(mine.reverseSwaps, theirs.reverseSwaps),
      InsertNewer(mine.fees, theirs.fees)
    )
  }

  /** The metadata rows that an import into `mine` replaces. */
  function ReplacedKeys(mine: map<Key, Stamped>, theirs: map<Key, Stamped>): set<Key> {
    set k | k in mine && k in theirs && theirs[k].at > mine[k].at
  }

  /** The number of insert triggers an import into `mine` fires; `swaps_fees` and `reverse_swaps` have none. */
  function InsertedRows(mine: SyncDb, theirs: SyncDb): nat {
    |theirs.swaps.Keys - mine.swaps.Keys|
    + |theirs.refunds - mine.refunds|
    + |theirs.external.Keys - mine.external.Keys|
    + |ReplacedKeys(mine.metadata, theirs.metadata)|
  }

  /** The metadata rows that are new or different. */
  function ChangedRows(before: map<Key, Stamped>, after: map<Key, Stamped>): set<Key> {
    set k | k in after && (k !in before || after[k] != before[k])
  }

  /** One trigger fires for each swap, refund and external info that is new, and for each metadata row that changed. */
  lemma InsertedRowsAre(mine: SyncDb, theirs: SyncDb, merged: SyncDb)
    requires merged == ImportRemoteChanges(mine, theirs)
    ensures InsertedRows(mine, theirs) ==
      |merged.swaps.Keys - mine.swaps.Keys| + |merged.refunds - mine.refunds|
      + |merged.external.Keys - mine.external.Keys| + |ChangedRows(mine.metadata, merged.metadata)|
  {
    assert merged.swaps.Keys - mine.swaps.Keys == theirs.swaps.Keys - mine.swaps.Keys;
    assert merged.refunds - mine.refunds == theirs.refunds - mine.refunds;
    assert merged.external.Keys - mine.external.Keys == theirs.external.Keys - mine.external.Keys;
    assert ChangedRows(mine.metadata, merged.metadata) == ReplacedKeys(mine.metadata, theirs.metadata);
  }

  /** No trigger fires exactly when the four tables that have one come out unchanged. */
  lemma NoTriggerIff(mine: SyncDb, theirs: SyncDb, merged: SyncDb)
    requires merged == ImportRemoteChanges(mine, theirs)
    ensures InsertedRows(mine, theirs) == 0 <==>
      && merged.swaps == mine.swaps && merged.refunds == mine.refunds
      && merged.external == mine.external && merged.metadata == mine.metadata
  {
    SameIff(mine.swaps, theirs.swaps);
    SameIff(mine.external, theirs.external);
    NothingAddedIff(mine.refunds, theirs.refunds);
    ReplacedNoneIff(mine.metadata, theirs.metadata);
  }

  lemma NothingAddedIff<T>(a: set<T>, b: set<T>)
    ensures a + b == a <==> |b - a| == 0
  {
    if |b - a| == 0 {
      forall x | x in b ensures x in a {
        assert x !in b - a;
      }
    }
  }

  lemma SameIff(a: map<Key, Row>, b: map<Key, Row>)
    ensures InsertMissing(a, b) == a <==> |b.Keys - a.Keys| == 0
  {
    NothingAddedIff(a.Keys, b.Keys);
    assert InsertMissing(a, b).Keys == a.Keys + b.Keys;
    if a.Keys + b.Keys == a.Keys {
      assert forall k :: k in b ==> k in a.Keys + b.Keys;
      assert InsertMissing(a, b) == a;
    }
  }

  lemma ReplacedNoneIff(a: map<Key, Stamped>, b: map<Key, Stamped>)
    ensures ReplaceNewer(a, b) == a <==> |ReplacedKeys(a, b)| == 0
  {
    if ReplacedKeys(a, b) == {} {
      forall k | k in a && k in b ensures b[k].at <= a[k].at {
        assert k !in ReplacedKeys(a, b);
      }
      assert ReplaceNewer(a, b) == a;
    } else {
      var k :| k in ReplacedKeys(a, b);
      assert ReplaceNewer(a, b)[k] != a[k];
    }
  }

  /** Outside payment metadata an import is exactly the union of the two record sets. */
  lemma ImportIsUnion(mine: SyncDb, theirs: SyncDb, r: Record)
    requires !r.MetadataRec?
    ensures Has(ImportRemoteChanges(mine, theirs), r) <==> Has(mine, r) || Has(theirs, r)
  {
  }

  /** An import keeps all metadata of the imported copy exactly when the importer already had those keys. */
  lemma ImportKeepsMetadataIff(scope: Scope, mine: SyncDb, theirs: SyncDb)
    requires scope.metadata
    ensures Covers(scope, ImportRemoteChanges(mine, theirs), theirs) <==> theirs.metadata.Keys <= mine.metadata.Keys
  {
    var merged := ImportRemoteChanges(mine, theirs);
    if Covers(scope, merged, theirs) {
      forall k | k in theirs.metadata ensures k in mine.metadata {
        assert Has(theirs, MetadataRec(k, 0)) && In(scope, MetadataRec(k, 0));
      }
    }
  }

  /** A fee is the newest of the two copies' rows, the local one on a tie. */
  lemma ImportKeepsNewestFee(mine: SyncDb, theirs: SyncDb, k: Key)
    requires k in mine.fees || k in theirs.fees
    ensures var fees := ImportRemoteChanges(mine, theirs).fees;
      && k in fees
      && (k in mine.fees ==> fees[k].at >= mine.fees[k].at)
      && (k in mine.fees && fees[k].at == mine.fees[k].at ==> fees[k] == mine.fees[k])
      && (k in theirs.fees ==> fees[k].at >= theirs.fees[k].at)
      && ((k in mine.fees && fees[k] == mine.fees[k]) || (k in theirs.fees && fees[k] == theirs.fees[k]))
  {
  }

  lemma InsertMissingTwice(a: map<Key, Row>, b: map<Key, Row>)
    ensures var once := InsertMissing(a, b); InsertMissing(once, b) == once && b.Keys - once.Keys == {}
  {
  }

  lemma InsertNewerTwice(a: map<Key, Stamped>, b: map<Key, Stamped>)
    ensures var once := InsertNewer(a, b); InsertNewer(once, b) == once
  {
  }

  lemma ReplaceNewerTwice(a: map<Key, Stamped>, b: map<Key, Stamped>)
    ensures var once := ReplaceNewer(a, b); ReplaceNewer(once, b) == once && ReplacedKeys(once, b) == {}
  {
  }

  /** Importing the same copy a second time changes nothing and fires no trigger, so it asks for no sync. */
  lemma ImportTwice(mine: SyncDb, theirs: SyncDb, once: SyncDb)
    requires once == ImportRemoteChanges(mine, theirs)
    ensures ImportRemoteChanges(once, theirs) == once && InsertedRows(once, theirs) == 0
  {
    InsertMissingTwice(mine.swaps, theirs.swaps);
    InsertMissingTwice(mine.external, theirs.external);
    InsertMissingTwice(mine.reverseSwaps, theirs.reverseSwaps);
    ReplaceNewerTwice(mine.metadata, theirs.metadata);
    InsertNewerTwice(mine.fees, theirs.fees);
    assert once.refunds + theirs.refunds == once.refunds && theirs.refunds - once.refunds == {};
  }

  /** Two copies of a table agree on every key that both hold. */
  ghost predicate SameRows(a: map<Key, Row>, b: map<Key, Row>) {
    forall k :: k in a && k in b ==> a[k] == b[k]
  }

  /** Rows of equal age are equal rows. */
  ghost predicate NoTies(a: map<Key, Stamped>, b: map<Key, Stamped>) {
    forall k :: k in a && k in b && a[k].at == b[k].at ==> a[k] == b[k]
  }

  /** What two copies must satisfy, before they are synchronised, to be equal afterwards. */
  ghost predicate Reconcilable(local: SyncDb, remote: SyncDb) {
    && SameRows(local.swaps, remote.swaps)
    && SameRows(local.external, remote.external)
    && SameRows(local.reverseSwaps, remote.reverseSwaps)
    && NoTies(local.fees, remote.fees)
    && local.metadata.Keys == remote.metadata.Keys
    && NoTies(local.metadata, remote.metadata)
  }

  /** The local copy imports the remote one, and the remote copy then imports the result. */
  function SyncBothWays(local: SyncDb, remote: SyncDb): (SyncDb, SyncDb) {
    var local' := ImportRemoteChanges(local, remote);
    (local', ImportRemoteChanges(remote, local'))
  }

  lemma InsertMissingAgreesIff(a: map<Key, Row>, b: map<Key, Row>)
    ensures var a' := InsertMissing(a, b); a' == InsertMissing(b, a') <==> SameRows(a, b)
  {
    var a' := InsertMissing(a, b);
    var b' := InsertMissing(b, a');
    forall k | k in a && k in b ensures a'[k] == a[k] && b'[k] == b[k] {
    }
    if SameRows(a, b) {
      assert a' == b';
    }
  }

  lemma InsertNewerAgreesIff(a: map<Key, Stamped>, b: map<Key, Stamped>)
    ensures var a' := InsertNewer(a, b); a' == InsertNewer(b, a') <==> NoTies(a, b)
  {
    var a' := InsertNewer(a, b);
    var b' := InsertNewer(b, a');
    forall k | k in a && k in b && a[k].at == b[k].at ensures a'[k] == a[k] && b'[k] == b[k] {
    }
    if NoTies(a, b) {
      assert a' == b';
    }
  }

  lemma ReplaceNewerAgreesIff(a: map<Key, Stamped>, b: map<Key, Stamped>)
    ensures var a' := ReplaceNewer(a, b); a' == ReplaceNewer(b, a') <==> a.Keys == b.Keys && NoTies(a, b)
  {
    var a' := ReplaceNewer(a, b);
    var b' := ReplaceNewer(b, a');
    assert a'.Keys == a.Keys && b'.Keys == b.Keys;
    forall k | k in a && k in b && a[k].at == b[k].at ensures a'[k] == a[k] && b'[k] == b[k] {
    }
    if a.Keys == b.Keys && NoTies(a, b) {
      assert a' == b';
    }
  }

  /** The pushed copy equals the local one exactly when the two copies were reconcilable. */
  lemma SyncBothWaysAgreesIff(local: SyncDb, remote: SyncDb)
    ensures SyncBothWays(local, remote).0 == SyncBothWays(local, remote).1 <==> Reconcilable(local, remote)
  {
    InsertMissingAgreesIff(local.swaps, remote.swaps);
    InsertMissingAgreesIff(local.external, remote.external);
    InsertMissingAgreesIff(local.reverseSwaps, remote.reverseSwaps);
    InsertNewerAgreesIff(local.fees, remote.fees);
    ReplaceNewerAgreesIff(local.metadata, remote.metadata);
  }

  /**
  On a key whose rows differ, first-come tables keep each side's own row: the local change does not
  reach the pushed copy. Timestamped fees do not have this defect unless the timestamps tie.
  */
  lemma ConflictingRowStaysLocal(local: SyncDb, remote: SyncDb, k: Key)
    requires k in local.external && k in remote.external && local.external[k] != remote.external[k]
    ensures SyncBothWays(local, remote).0.external[k] == local.external[k]
    ensures SyncBothWays(local, remote).1.external[k] == remote.external[k]
  {
  }
}
