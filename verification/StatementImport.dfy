/**
 Importing one statement: parse, drop rows whose key is already stored for this account or
 repeated in the file, insert the rest under a new batch, commit once.
 */
module StatementImport {
  import opened Wrappers
  import opened ImportKeys

  const MAX_ROWS: nat := 50_000

  // ---------------------------------------------------------------- parsing

  /** A file row after its date and amount were read; None where they could not be. */
  datatype RawRow = RawRow(date: Option<Field>, amount: Option<Field>, description: string)

  /** The rows with a readable date and amount, in file order. */
  function Usable(raws: seq<RawRow>): seq<ParsedRow> {
    if raws == [] then []
    else
      var last := raws[|raws| - 1];
      Usable(raws[..|raws| - 1])
      + if last.date.Some? && last.amount.Some?
        then [ParsedRow(last.date.value, last.amount.value, last.description)] else []
  }

  lemma UsableGrows(raws: seq<RawRow>, i: nat)
    requires i <= |raws|
    ensures |Usable(raws[..i])| <= |Usable(raws)|
    decreases |raws| - i
  {
    if i == |raws| {
      assert raws[..i] == raws;
    } else {
      assert raws[..i + 1][..i] == raws[..i];
      UsableGrows(raws, i + 1);
    }
  }

  predicate Readable(raw: RawRow) {
    raw.date.Some? && raw.amount.Some?
  }

  /** The parsed row carries the raw row's own date, amount and description. */
  predicate ReadFrom(raw: RawRow, row: ParsedRow) {
    && Readable(raw)
    && row.date == raw.date.value && row.amount == raw.amount.value && row.description == raw.description
  }

  /** `picks` are the increasing positions of exactly the readable raw rows, and `rows` what they say. */
  ghost predicate AreReadings(raws: seq<RawRow>, rows: seq<ParsedRow>, picks: seq<nat>) {
    && |picks| == |rows|
    && (forall t :: 0 <= t < |picks| ==> picks[t] < |raws| && ReadFrom(raws[picks[t]], rows[t]))
    && (forall t, u :: 0 <= t < u < |picks| ==> picks[t] < picks[u])
    && (forall i: nat :: i < |raws| ==> (i in picks <==> Readable(raws[i])))
  }

  lemma ReadingsSnoc(init: seq<RawRow>, last: RawRow, rows: seq<ParsedRow>, picks: seq<nat>)
    requires AreReadings(init, rows, picks)
    ensures !Readable(last) ==> AreReadings(init + [last], rows, picks)
    ensures Readable(last) ==>
      AreReadings(init + [last], rows + [ParsedRow(last.date.value, last.amount.value, last.description)],
                  picks + [|init|])
  {
    var more := picks + [|init|];
    assert |init| !in picks;
    assert forall i: nat :: i < |init| ==> (i in more <==> i in picks);
    assert more[|picks|] == |init|;
  }

  /** What a file is parsed into: its readable rows, in file order, field by field. */
  lemma {:induction false} UsableAreReadings(raws: seq<RawRow>) returns (picks: seq<nat>)
    ensures AreReadings(raws, Usable(raws), picks)
    decreases |raws|
  {
    picks := [];
    if raws != [] {
      hide AreReadings;
      var init, last := raws[..|raws| - 1], raws[|raws| - 1];
      picks := UsableAreReadings(init);
      ReadingsSnoc(init, last, Usable(init), picks);
      assert init + [last] == raws && Usable(init) + [] == Usable(init);
      if Readable(last) {
        picks := picks + [|init|];
      }
    }
  }

  /** None stands for the error that rejects a file with more usable rows than the limit. */
  method ParseRows(raws: seq<RawRow>) returns (parsed: Option<seq<ParsedRow>>)
    ensures parsed == if |Usable(raws)| <= MAX_ROWS then Some(Usable(raws)) else None
  {
    var rows: seq<ParsedRow> := [];
    for i := 0 to |raws|
      invariant rows == Usable(raws[..i]) && |rows| <= MAX_ROWS
    {
      assert raws[..i + 1][..i] == raws[..i];
      var raw := raws[i];
      if raw.date.Some? && raw.amount.Some? {
        if |rows| >= MAX_ROWS {
          UsableGrows(raws, i + 1);
          return None;
        }
        rows := rows + [ParsedRow(raw.date.value, raw.amount.value, raw.description)];
      }
    }
    assert raws[..|raws|] == raws;
    return Some(rows);
  }

  // ---------------------------------------------------------------- which rows are inserted

  function Keys(account: nat, rows: seq<ParsedRow>): set<Hash> {
    set row | row in rows :: ContentKey(account, row)
  }

  /** Row `i` is the file's first row with its key, and the key is not stored yet. */
  ghost predicate FirstNew(existing: set<Hash>, account: nat, rows: seq<ParsedRow>, i: nat)
    requires i < |rows|
  {
    ContentKey(account, rows[i]) !in existing && ContentKey(account, rows[i]) !in Keys(account, rows[..i])
  }

  /** The rows that an import inserts, in file order. */
  function Selected(existing: set<Hash>, account: nat, rows: seq<ParsedRow>): seq<ParsedRow> {
    if rows == [] then []
    else
      var n := |rows| - 1;
      Selected(existing, account, rows[..n])
      + if ContentKey(account, rows[n]) !in existing
           && ContentKey(account, rows[n]) !in Keys(account, rows[..n]) then [rows[n]] else []
  }

  lemma KeysSnoc(account: nat, rows: seq<ParsedRow>, row: ParsedRow)
    ensures Keys(account, rows + [row]) == Keys(account, rows) + {ContentKey(account, row)}
  {
  }

  lemma NoKeys(account: nat)
    ensures Keys(account, []) == {}
  {
  }

  /** One turn of the filtering loop. */
  lemma FilterStep(existing: set<Hash>, account: nat, rows: seq<ParsedRow>, i: nat)
    requires i < |rows|
    ensures var h, before := ContentKey(account, rows[i]), Keys(account, rows[..i]);
      && Keys(account, rows[..i + 1]) == before + {h}
      && Selected(existing, account, rows[..i + 1])
         == Selected(existing, account, rows[..i]) + if h !in existing && h !in before then [rows[i]] else []
  {
    assert rows[..i + 1][..i] == rows[..i];
    assert rows[..i + 1] == rows[..i] + [rows[i]];
    KeysSnoc(account, rows[..i], rows[i]);
  }

  method FilterNew(existing: set<Hash>, account: nat, rows: seq<ParsedRow>) returns (added: seq<ParsedRow>)
    ensures added == Selected(existing, account, rows)
  {
    hide Keys, ContentKey;
    added := [];
    var seen: set<Hash> := {};
    NoKeys(account);
    for i := 0 to |rows|
      invariant added == Selected(existing, account, rows[..i])
      invariant seen == Keys(account, rows[..i]) - existing
    {
      hide Selected;
      FilterStep(existing, account, rows, i);
      var h := ContentKey(account, rows[i]);
      if h !in existing && h !in seen {
        seen := seen + {h};
        added := added + [rows[i]];
      }
    }
    assert rows[..|rows|] == rows;
  }

  /** `picks` are the increasing positions of exactly the first new rows, and `selected` those rows. */
  ghost predicate ArePicks(existing: set<Hash>, account: nat, rows: seq<ParsedRow>,
                           selected: seq<ParsedRow>, picks: seq<nat>)
  {
    && |picks| == |selected|
    && (forall t :: 0 <= t < |picks| ==> picks[t] < |rows| && rows[picks[t]] == selected[t])
    && (forall t, u :: 0 <= t < u < |picks| ==> picks[t] < picks[u])
    && (forall i: nat :: i < |rows| ==> (i in picks <==> FirstNew(existing, account, rows, i)))
  }

  lemma FirstNewPrefix(existing: set<Hash>, account: nat, init: seq<ParsedRow>, row: ParsedRow, i: nat)
    requires i < |init|
    ensures FirstNew(existing, account, init + [row], i) <==> FirstNew(existing, account, init, i)
  {
    assert (init + [row])[..i] == init[..i];
  }

  lemma PicksSnoc(existing: set<Hash>, account: nat, init: seq<ParsedRow>, row: ParsedRow,
                  selected: seq<ParsedRow>, picks: seq<nat>)
    requires ArePicks(existing, account, init, selected, picks)
    ensures FirstNew(existing, account, init + [row], |init|) ==>
      ArePicks(existing, account, init + [row], selected + [row], picks + [|init|])
    ensures !FirstNew(existing, account, init + [row], |init|) ==>
      ArePicks(existing, account, init + [row], selected, picks)
  {
    forall i: nat | i < |init|
      ensures FirstNew(existing, account, init + [row], i) <==> i in picks
    {
      FirstNewPrefix(existing, account, init, row, i);
    }
    assert |init| !in picks;
  }

  lemma SelectedSnoc(existing: set<Hash>, account: nat, init: seq<ParsedRow>, row: ParsedRow)
    ensures Selected(existing, account, init + [row])
         == Selected(existing, account, init)
            + if FirstNew(existing, account, init + [row], |init|) then [row] else []
  {
    assert (init + [row])[..|init|] == init;
  }

  lemma PicksGrow(existing: set<Hash>, account: nat, init: seq<ParsedRow>, row: ParsedRow, picks: seq<nat>)
    returns (more: seq<nat>)
    requires ArePicks(existing, account, init, Selected(existing, account, init), picks)
    ensures ArePicks(existing, account, init + [row], Selected(existing, account, init + [row]), more)
  {
    PicksSnoc(existing, account, init, row, Selected(existing, account, init), picks);
    SelectedSnoc(existing, account, init, row);
    if FirstNew(existing, account, init + [row], |init|) {
      more := picks + [|init|];
    } else {
      more := picks;
      assert Selected(existing, account, init) + [] == Selected(existing, account, init);
    }
  }

  /** The inserted rows are exactly the first occurrences of new keys, in file order. */
  lemma {:induction false} SelectedAreFirstOccurrences(existing: set<Hash>, account: nat, rows: seq<ParsedRow>)
    returns (picks: seq<nat>)
    ensures ArePicks(existing, account, rows, Selected(existing, account, rows), picks)
  {
    if rows == [] {
      picks := [];
    } else {
      var init, row := rows[..|rows| - 1], rows[|rows| - 1];
      picks := SelectedAreFirstOccurrences(existing, account, init);
      picks := PicksGrow(existing, account, init, row, picks);
      assert init + [row] == rows;
    }
  }

  ghost predicate DistinctKeys(account: nat, rows: seq<ParsedRow>) {
    forall i, j :: 0 <= i < j < |rows| ==> ContentKey(account, rows[i]) != ContentKey(account, rows[j])
  }

  lemma DistinctSnoc(account: nat, rows: seq<ParsedRow>, row: ParsedRow)
    requires DistinctKeys(account, rows) && ContentKey(account, row) !in Keys(account, rows)
    ensures DistinctKeys(account, rows + [row])
  {
    assert forall i :: 0 <= i < |rows| ==> rows[i] in rows;
  }

  /** An import adds exactly the file's keys that were not there, each of them once. */
  lemma {:induction false} SelectedKeys(existing: set<Hash>, account: nat, rows: seq<ParsedRow>)
    ensures Keys(account, Selected(existing, account, rows)) == Keys(account, rows) - existing
    ensures DistinctKeys(account, Selected(existing, account, rows))
  {
    if rows != [] {
      var init, row := rows[..|rows| - 1], rows[|rows| - 1];
      var before := Selected(existing, account, init);
      SelectedKeys(existing, account, init);
      SelectedSnoc(existing, account, init, row);
      KeysSnoc(account, init, row);
      KeysSnoc(account, before, row);
      assert rows == init + [row] && (init + [row])[..|init|] == init;
      if FirstNew(existing, account, init + [row], |init|) {
        DistinctSnoc(account, before, row);
      } else {
        assert before + [] == before;
      }
    }
  }

  lemma KeysAppend(account: nat, a: seq<ParsedRow>, b: seq<ParsedRow>)
    ensures Keys(account, a + b) == Keys(account, a) + Keys(account, b)
  {
  }

  /** Splitting a file and importing its parts in order inserts the same rows in the same order. */
  lemma {:induction false} SplitFile(existing: set<Hash>, account: nat, a: seq<ParsedRow>, b: seq<ParsedRow>)
    ensures Selected(existing, account, a + b)
         == Selected(existing, account, a) + Selected(existing + Keys(account, a), account, b)
    decreases |b|
  {
    if b == [] {
      assert a + b == a;
    } else {
      var n := |b| - 1;
      assert (a + b)[..|a + b| - 1] == a + b[..n];
      SplitFile(existing, account, a, b[..n]);
      KeysAppend(account, a, b[..n]);
    }
  }

  lemma NoKeysNoRows(account: nat, rows: seq<ParsedRow>)
    ensures Keys(account, rows) == {} <==> rows == []
  {
    if rows != [] {
      assert ContentKey(account, rows[0]) in Keys(account, rows);
    }
  }

  /** A file inserts nothing iff all its keys are stored; so a second import of it inserts nothing. */
  lemma NothingNew(existing: set<Hash>, account: nat, rows: seq<ParsedRow>)
    ensures Selected(existing, account, rows) == [] <==> Keys(account, rows) <= existing
    ensures Selected(existing + Keys(account, rows), account, rows) == []
  {
    var all := existing + Keys(account, rows);
    SelectedKeys(existing, account, rows);
    NoKeysNoRows(account, Selected(existing, account, rows));
    SelectedKeys(all, account, rows);
    NoKeysNoRows(account, Selected(all, account, rows));
    assert Keys(account, rows) - existing == {} <==> Keys(account, rows) <= existing;
    assert Keys(account, rows) - all == {};
  }

  // ---------------------------------------------------------------- the store

  datatype Txn = Txn(account: nat, row: ParsedRow, hash: Option<Hash>, batch: Option<nat>)

  datatype Batch = Batch(account: nat, rowCount: nat)

  datatype BatchAudit = BatchAudit(batch: nat, parsed: nat, inserted: nat)

  datatype Db = Db(accounts: set<nat>, txns: seq<Txn>, batches: map<nat, Batch>,
                   audit: seq<BatchAudit>, nextBatch: nat)

  function Tagged(account: nat, batch: nat, rows: seq<ParsedRow>): seq<Txn> {
    seq(|rows|, i requires 0 <= i < |rows| => Txn(account, rows[i], Some(ContentKey(account, rows[i])), Some(batch)))
  }

  /** Every stored hash, over all accounts: what the unique index covers. */
  function AllHashes(db: Db): set<Hash> {
    set t | t in db.txns && t.hash.Some? :: t.hash.value
  }

  /** The hashes an import pre-loads: those of its own account only. */
  function OwnHashes(db: Db, account: nat): set<Hash> {
    set t | t in db.txns && t.account == account && t.hash.Some? :: t.hash.value
  }

  /** One import, performed all at once against `db`. */
  function ImportAt(db: Db, account: nat, rows: seq<ParsedRow>, batch: nat): Db {
    var added := Selected(OwnHashes(db, account), account, rows);
    db.(txns := db.txns + Tagged(account, batch, added),
        batches := db.batches[batch := Batch(account, |added|)],
        audit := db.audit + [BatchAudit(batch, |rows|, |added|)])
  }

  function CountTagged(txns: seq<Txn>, batch: nat): nat {
    if txns == [] then 0
    else CountTagged(txns[..|txns| - 1], batch) + if txns[|txns| - 1].batch == Some(batch) then 1 else 0
  }

  /** What the unique index promises. */
  ghost predicate HashesUnique(txns: seq<Txn>) {
    forall i, j :: 0 <= i < j < |txns| && txns[i].hash.Some? ==> txns[i].hash != txns[j].hash
  }

  ghost predicate DbInv(db: Db) {
    && (forall t :: t in db.txns && t.hash.Some? ==> t.hash.value == ContentKey(t.account, t.row))
    && HashesUnique(db.txns)
    && (forall t :: t in db.txns && t.batch.Some? ==> t.batch.value in db.batches)
    && (forall b :: b in db.batches ==> b < db.nextBatch && db.batches[b].rowCount == CountTagged(db.txns, b))
    && (forall a :: a in db.audit ==>
          a.batch in db.batches && a.inserted == db.batches[a.batch].rowCount && a.inserted <= a.parsed)
  }

  /** A key stored anywhere under this account's prefix is stored for this account. */
  lemma OwnHashesSuffice(db: Db, account: nat, row: ParsedRow)
    requires DbInv(db)
    ensures ContentKey(account, row) in AllHashes(db) <==> ContentKey(account, row) in OwnHashes(db, account)
  {
    if ContentKey(account, row) in AllHashes(db) {
      var t :| t in db.txns && t.hash == Some(ContentKey(account, row));
      KeyIdentifiesRow(t.account, t.row, account, row);
    }
  }

  /** Pre-loading one account's hashes is enough: no inserted row can violate the global index. */
  lemma FreshRowsNeverCollide(db: Db, account: nat, rows: seq<ParsedRow>)
    requires DbInv(db)
    ensures Keys(account, Selected(OwnHashes(db, account), account, rows)) !! AllHashes(db)
  {
    var own := OwnHashes(db, account);
    SelectedKeys(own, account, rows);
    forall h | h in Keys(account, Selected(own, account, rows))
      ensures h !in AllHashes(db)
    {
      var row :| row in Selected(own, account, rows) && h == ContentKey(account, row);
      OwnHashesSuffice(db, account, row);
    }
  }

  lemma {:induction false} CountAppend(txns: seq<Txn>, more: seq<Txn>, batch: nat)
    ensures CountTagged(txns + more, batch) == CountTagged(txns, batch) + CountTagged(more, batch)
  {
    if more == [] {
      assert txns + more == txns;
    } else {
      var n := |more| - 1;
      assert (txns + more)[..|txns + more| - 1] == txns + more[..n];
      CountAppend(txns, more[..n], batch);
    }
  }

  lemma {:induction false} CountUniform(txns: seq<Txn>, tag: nat, batch: nat)
    requires forall t :: t in txns ==> t.batch == Some(tag)
    ensures CountTagged(txns, batch) == if batch == tag then |txns| else 0
  {
    if txns != [] {
      CountUniform(txns[..|txns| - 1], tag, batch);
      assert txns[|txns| - 1] in txns;
    }
  }

  lemma {:induction false} CountNone(txns: seq<Txn>, batch: nat)
    requires forall t :: t in txns ==> t.batch != Some(batch)
    ensures CountTagged(txns, batch) == 0
  {
    if txns != [] {
      CountNone(txns[..|txns| - 1], batch);
      assert txns[|txns| - 1] in txns;
    }
  }

  lemma {:induction false} SelectedNoLonger(existing: set<Hash>, account: nat, rows: seq<ParsedRow>)
    ensures |Selected(existing, account, rows)| <= |rows|
  {
    if rows != [] {
      SelectedNoLonger(existing, account, rows[..|rows| - 1]);
    }
  }

  lemma UniqueAppend(db: Db, account: nat, batch: nat, added: seq<ParsedRow>)
    requires HashesUnique(db.txns) && Keys(account, added) !! AllHashes(db)
    requires DistinctKeys(account, added)
    ensures HashesUnique(db.txns + Tagged(account, batch, added))
  {
    var all, n := db.txns + Tagged(account, batch, added), |db.txns|;
    forall i, j | 0 <= i < j < |all| && all[i].hash.Some?
      ensures all[i].hash != all[j].hash
    {
      if i < n <= j {
        assert db.txns[i] in db.txns && added[j - n] in added;
        assert all[i].hash.value in AllHashes(db);
        assert all[j].hash.value in Keys(account, added);
      }
    }
  }

  lemma CountsAfterImport(db: Db, account: nat, batch: nat, added: seq<ParsedRow>, b: nat)
    requires DbInv(db) && batch !in db.batches
    ensures CountTagged(db.txns + Tagged(account, batch, added), b)
         == if b == batch then |added| else CountTagged(db.txns, b)
  {
    CountAppend(db.txns, Tagged(account, batch, added), b);
    CountUniform(Tagged(account, batch, added), batch, b);
    if b == batch {
      CountNone(db.txns, batch);
    }
  }

  /**
   An import keeps the stored data consistent: hashes stay unique over all accounts, and every
   batch counts exactly the transactions tagged with it.
   */
  lemma ImportKeeps(db: Db, account: nat, rows: seq<ParsedRow>, batch: nat)
    requires DbInv(db) && batch !in db.batches && batch < db.nextBatch
    ensures DbInv(ImportAt(db, account, rows, batch))
  {
    var own := OwnHashes(db, account);
    var added := Selected(own, account, rows);
    FreshRowsNeverCollide(db, account, rows);
    SelectedKeys(own, account, rows);
    SelectedNoLonger(own, account, rows);
    UniqueAppend(db, account, batch, added);
    forall b: nat
      ensures CountTagged(db.txns + Tagged(account, batch, added), b)
           == if b == batch then |added| else CountTagged(db.txns, b)
    {
      CountsAfterImport(db, account, batch, added, b);
    }
  }

  /** Afterwards the stored hashes are the old ones and the file's. */
  lemma HashesAfterImport(db: Db, account: nat, rows: seq<ParsedRow>, batch: nat)
    ensures AllHashes(ImportAt(db, account, rows, batch)) == AllHashes(db) + Keys(account, rows)
    ensures OwnHashes(ImportAt(db, account, rows, batch), account) == OwnHashes(db, account) + Keys(account, rows)
  {
    var own := OwnHashes(db, account);
    var added := Selected(own, account, rows);
    var tagged := Tagged(account, batch, added);
    SelectedKeys(own, account, rows);
    assert forall t :: t in tagged ==> t.hash.Some? && t.hash.value in Keys(account, added) && t.account == account;
    var after := ImportAt(db, account, rows, batch);
    forall h | h in Keys(account, added)
      ensures h in AllHashes(after) && h in OwnHashes(after, account)
    {
      var i :| 0 <= i < |added| && ContentKey(account, added[i]) == h;
      assert tagged[i] in after.txns;
    }
    forall h | h in AllHashes(db)
      ensures h in AllHashes(after)
    {
      var t :| t in db.txns && t.hash == Some(h);
      assert t in after.txns;
    }
    forall h | h in own
      ensures h in OwnHashes(after, account) && h in AllHashes(db)
    {
      var t :| t in db.txns && t.account == account && t.hash == Some(h);
      assert t in after.txns;
    }
  }

  /** The stored transactions with their batches forgotten. */
  function Contents(txns: seq<Txn>): seq<(nat, ParsedRow)> {
    seq(|txns|, i requires 0 <= i < |txns| => (txns[i].account, txns[i].row))
  }

  lemma ContentsAppend(a: seq<Txn>, b: seq<Txn>)
    ensures Contents(a + b) == Contents(a) + Contents(b)
  {
  }

  lemma ContentsTagged(account: nat, batch1: nat, batch2: nat, a: seq<ParsedRow>, b: seq<ParsedRow>, whole: nat)
    ensures Contents(Tagged(account, batch1, a)) + Contents(Tagged(account, batch2, b))
         == Contents(Tagged(account, whole, a + b))
  {
  }

  lemma ContentsAfterImport(db: Db, account: nat, rows: seq<ParsedRow>, batch: nat)
    ensures var added := Selected(OwnHashes(db, account), account, rows);
      && Contents(ImportAt(db, account, rows, batch).txns)
         == Contents(db.txns) + Contents(Tagged(account, batch, added))
      && ImportAt(db, account, rows, batch).batches[batch].rowCount == |added|
  {
    ContentsAppend(db.txns, Tagged(account, batch, Selected(OwnHashes(db, account), account, rows)));
  }

  /**
   Importing a file in two parts stores the same transactions in the same order as importing it
   whole, and the parts' row counts add up.
   */
  lemma PartsImportWhole(db: Db, account: nat, a: seq<ParsedRow>, b: seq<ParsedRow>,
                         batch1: nat, batch2: nat, whole: nat)
    requires batch1 != batch2
    ensures var parts := ImportAt(ImportAt(db, account, a, batch1), account, b, batch2);
      var all := ImportAt(db, account, a + b, whole);
      && Contents(parts.txns) == Contents(all.txns)
      && parts.batches[batch1].rowCount + parts.batches[batch2].rowCount == all.batches[whole].rowCount
  {
    hide Selected, OwnHashes, Keys, Contents, Tagged;
    var own := OwnHashes(db, account);
    var half := ImportAt(db, account, a, batch1);
    HashesAfterImport(db, account, a, batch1);
    SplitFile(own, account, a, b);
    ContentsAfterImport(db, account, a, batch1);
    ContentsAfterImport(half, account, b, batch2);
    ContentsAfterImport(db, account, a + b, whole);
    ContentsTagged(account, batch1, batch2, Selected(own, account, a),
                   Selected(own + Keys(account, a), account, b), whole);
  }

  /** Importing a file again stores nothing, and its new batch counts zero rows. */
  lemma ReimportStoresNothing(db: Db, account: nat, rows: seq<ParsedRow>, batch: nat, again: nat)
    ensures var once := ImportAt(db, account, rows, batch);
      var twice := ImportAt(once, account, rows, again);
      twice.txns == once.txns && twice.batches[again].rowCount == 0
  {
    HashesAfterImport(db, account, rows, batch);
    NothingNew(OwnHashes(db, account), account, rows);
  }

  // ---------------------------------------------------------------- from the file to the store

  /** A stored transaction says what its raw row says, for the right account and batch. */
  predicate StoredFrom(raw: RawRow, account: nat, batch: nat, t: Txn) {
    && ReadFrom(raw, t.row)
    && t.account == account && t.batch == Some(batch) && t.hash == Some(ContentKey(account, t.row))
  }

  ghost predicate Increasing(picks: seq<nat>) {
    forall t, u :: 0 <= t < u < |picks| ==> picks[t] < picks[u]
  }

  /** Two readable rows with the same fields. */
  predicate SameFields(a: RawRow, b: RawRow) {
    Readable(a) && Readable(b) && a.date == b.date && a.amount == b.amount && a.description == b.description
  }

  /** No transaction of the account has these fields under its key. */
  predicate Unstored(db: Db, account: nat, raw: RawRow) {
    Readable(raw) ==>
      ContentKey(account, ParsedRow(raw.date.value, raw.amount.value, raw.description)) !in OwnHashes(db, account)
  }

  /** The first readable row with its fields, not stored before. */
  ghost predicate IsNewRow(db: Db, account: nat, raws: seq<RawRow>, i: nat)
    requires i < |raws|
  {
    Readable(raws[i]) && Unstored(db, account, raws[i])
    && forall j :: 0 <= j < i ==> !SameFields(raws[j], raws[i])
  }

  lemma InKeysExactly(account: nat, rows: seq<ParsedRow>, row: ParsedRow)
    ensures ContentKey(account, row) in Keys(account, rows) <==> row in rows
  {
    hide ContentKey;
    if ContentKey(account, row) in Keys(account, rows) {
      var other :| other in rows && ContentKey(account, other) == ContentKey(account, row);
      KeyIdentifiesRow(account, other, account, row);
    }
  }

  lemma NewRowExactly(db: Db, account: nat, raws: seq<RawRow>, rows: seq<ParsedRow>, picks: seq<nat>, m: nat)
    requires AreReadings(raws, rows, picks) && m < |rows|
    ensures FirstNew(OwnHashes(db, account), account, rows, m) <==> IsNewRow(db, account, raws, picks[m])
  {
    hide ContentKey, OwnHashes, Keys;
    InKeysExactly(account, rows[..m], rows[m]);
    if rows[m] in rows[..m] {
      var k :| 0 <= k < m && rows[k] == rows[m];
      assert picks[k] < picks[m] && SameFields(raws[picks[k]], raws[picks[m]]);
    }
    if j :| 0 <= j < picks[m] && SameFields(raws[j], raws[picks[m]]) {
      assert j in picks;
      var k :| 0 <= k < |picks| && picks[k] == j;
      assert k < m && rows[..m][k] == rows[m];
    }
  }

  /** The positions in the file of the rows that were selected from the parsed ones. */
  function Through(picks: seq<nat>, chosen: seq<nat>): seq<nat>
    requires forall t :: 0 <= t < |chosen| ==> chosen[t] < |picks|
  {
    seq(|chosen|, t requires 0 <= t < |chosen| => picks[chosen[t]])
  }

  ghost predicate AreNewRows(db: Db, account: nat, raws: seq<RawRow>, positions: seq<nat>) {
    && Increasing(positions)
    && (forall t :: 0 <= t < |positions| ==> positions[t] < |raws|)
    && (forall i: nat :: i < |raws| ==> (i in positions <==> IsNewRow(db, account, raws, i)))
  }

  lemma NewIsReadable(db: Db, account: nat, raws: seq<RawRow>, i: nat)
    requires i < |raws| && IsNewRow(db, account, raws, i)
    ensures Readable(raws[i])
  {
  }

  lemma NewPositions(db: Db, account: nat, raws: seq<RawRow>, rows: seq<ParsedRow>, added: seq<ParsedRow>,
                     picks: seq<nat>, chosen: seq<nat>)
    requires AreReadings(raws, rows, picks)
    requires ArePicks(OwnHashes(db, account), account, rows, added, chosen)
    ensures AreNewRows(db, account, raws, Through(picks, chosen))
    ensures forall t :: 0 <= t < |added| ==> ReadFrom(raws[Through(picks, chosen)[t]], added[t])
  {
    hide OwnHashes, IsNewRow, FirstNew, ReadFrom;
    var positions := Through(picks, chosen);
    forall i: nat | i < |raws|
      ensures i in positions <==> IsNewRow(db, account, raws, i)
    {
      if i in positions {
        var t :| 0 <= t < |positions| && positions[t] == i;
        assert chosen[t] in chosen;
        NewRowExactly(db, account, raws, rows, picks, chosen[t]);
      }
      if IsNewRow(db, account, raws, i) {
        NewIsReadable(db, account, raws, i);
        assert i in picks;
        var m: nat :| m < |picks| && picks[m] == i;
        NewRowExactly(db, account, raws, rows, picks, m);
        var t :| 0 <= t < |chosen| && chosen[t] == m;
        assert positions[t] == i;
      }
    }
  }

  lemma PositionsInRange(db: Db, account: nat, raws: seq<RawRow>, positions: seq<nat>)
    requires AreNewRows(db, account, raws, positions)
    ensures forall t :: 0 <= t < |positions| ==> positions[t] < |raws|
  {
  }

  lemma StoredRows(db: Db, account: nat, rows: seq<ParsedRow>, batch: nat, t: nat)
    requires t < |Selected(OwnHashes(db, account), account, rows)|
    ensures var after, added := ImportAt(db, account, rows, batch), Selected(OwnHashes(db, account), account, rows);
      && |after.txns| == |db.txns| + |added|
      && after.txns[|db.txns| + t] == Txn(account, added[t], Some(ContentKey(account, added[t])), Some(batch))
  {
    hide OwnHashes, Selected, ContentKey;
  }

  /**
   What an import of a file stores: one transaction for exactly the first readable rows with their
   fields that were not stored, in file order, each saying what its row says; and the summary counts
   the readable rows and the stored ones.
   */
  lemma ImportStoresTheFile(db: Db, account: nat, raws: seq<RawRow>, batch: nat) returns (positions: seq<nat>)
    ensures var after := ImportAt(db, account, Usable(raws), batch);
      && AreNewRows(db, account, raws, positions)
      && |after.txns| == |db.txns| + |positions| && db.txns <= after.txns
      && (forall t :: 0 <= t < |positions| ==>
            positions[t] < |raws| && StoredFrom(raws[positions[t]], account, batch, after.txns[|db.txns| + t]))
      && after.batches == db.batches[batch := Batch(account, |positions|)]
      && after.audit == db.audit + [BatchAudit(batch, |Usable(raws)|, |positions|)]
  {
    var own := OwnHashes(db, account);
    var rows := Usable(raws);
    var picks := UsableAreReadings(raws);
    var chosen := SelectedAreFirstOccurrences(own, account, rows);
    var added := Selected(own, account, rows);
    NewPositions(db, account, raws, rows, added, picks, chosen);
    positions := Through(picks, chosen);
    PositionsInRange(db, account, raws, positions);
    assert |positions| == |added|;
    hide OwnHashes, Selected, Usable, ContentKey, ArePicks, AreReadings, AreNewRows, Through, ReadFrom;
    forall t: nat | t < |positions|
      ensures StoredFrom(raws[positions[t]], account, batch, ImportAt(db, account, rows, batch).txns[|db.txns| + t])
    {
      StoredRows(db, account, rows, batch, t);
    }
  }

  // ---------------------------------------------------------------- the endpoint, in place

  /** An upload: over the size limit, not decodable as a statement, or its rows. */
  datatype Upload = Oversized | Undecodable | Decoded(raws: seq<RawRow>)

  datatype Reply = NotFound | TooLarge | Unparseable | Failed | Imported(batch: nat, parsed: nat, inserted: nat)

  /** The usable rows of an upload that is accepted. */
  function Accepted(upload: Upload): Option<seq<ParsedRow>> {
    if upload.Decoded? && |Usable(upload.raws)| <= MAX_ROWS then Some(Usable(upload.raws)) else None
  }

  lemma SameHashes(db: Db, db': Db, account: nat)
    requires db.txns == db'.txns
    ensures OwnHashes(db, account) == OwnHashes(db', account)
  {
  }

  class Store {
    var accounts: set<nat>
    var txns: seq<Txn>
    var batches: map<nat, Batch>
    var audit: seq<BatchAudit>
    var nextBatch: nat

    function Now(): Db
      reads this
    {
      Db(accounts, txns, batches, audit, nextBatch)
    }

    /** `commitOk` is the database's answer; a failed commit leaves nothing but a used batch id. */
    method ImportTransactions(account: nat, upload: Upload, commitOk: bool) returns (reply: Reply)
      requires DbInv(Now())
      modifies this
      ensures DbInv(Now())
      ensures account !in old(accounts) ==> reply == NotFound && Now() == old(Now())
      ensures account in old(accounts) && Accepted(upload).None? ==>
        reply == (if upload.Oversized? then TooLarge else Unparseable) && Now() == old(Now())
      ensures account in old(accounts) && Accepted(upload).Some? && !commitOk ==>
        reply == Failed && Now() == old(Now()).(nextBatch := old(nextBatch) + 1)
      ensures account in old(accounts) && Accepted(upload).Some? && commitOk ==>
        var rows := Accepted(upload).value;
        var added := Selected(OwnHashes(old(Now()), account), account, rows);
        && reply == Imported(old(nextBatch), |rows|, |added|)
        && Now() == ImportAt(old(Now()), account, rows, old(nextBatch)).(nextBatch := old(nextBatch) + 1)
    {
      hide Usable, Selected, OwnHashes, Tagged;
      if account !in accounts {
        return NotFound;
      }
      if upload.Oversized? {
        return TooLarge;
      }
      if upload.Undecodable? {
        return Unparseable;
      }
      var parsed := ParseRows(upload.raws);
      if parsed.None? {
        return Unparseable;
      }
      var rows, batch := parsed.value, nextBatch;
      ghost var started := Now().(nextBatch := batch + 1);
      ImportKeeps(started, account, rows, batch);
      SameHashes(Now(), started, account);
      nextBatch := nextBatch + 1;
      var existing := OwnHashes(Now(), account);
      var added := FilterNew(existing, account, rows);
      if !commitOk {
        return Failed;
      }
      txns := txns + Tagged(account, batch, added);
      batches := batches[batch := Batch(account, |added|)];
      audit := audit + [BatchAudit(batch, |rows|, |added|)];
      return Imported(batch, |rows|, |added|);
    }
  }
}
