/**
 Several imports at once: each takes a batch id, later reads its account's committed hashes and
 filters its rows, later still tries to commit.  A commit is atomic and is refused by the unique
 index if a hash was stored meanwhile; an import may also fail at any point.
 */
module ImportProtocol {
  import opened Wrappers
  import opened ImportKeys
  import opened StatementImport

  datatype Phase = Started | Filtered(existing: set<Hash>)

  datatype Importer = Importer(account: nat, rows: seq<ParsedRow>, batch: nat, phase: Phase)

  datatype World = World(db: Db, running: map<nat, Importer>)

  datatype Event =
    | Start(who: nat, account: nat, rows: seq<ParsedRow>)
    | ReadHashes(who: nat)
    | TryCommit(who: nat)
    | Fail(who: nat)

  /** The rows an importer decided to insert when it read the stored hashes. */
  function Chosen(im: Importer): seq<ParsedRow>
    requires im.phase.Filtered?
  {
    Selected(im.phase.existing, im.account, im.rows)
  }

  predicate Refused(db: Db, im: Importer)
    requires im.phase.Filtered?
  {
    Keys(im.account, Chosen(im)) * AllHashes(db) != {}
  }

  function Insert(db: Db, im: Importer): Db
    requires im.phase.Filtered?
  {
    db.(txns := db.txns + Tagged(im.account, im.batch, Chosen(im)),
        batches := db.batches[im.batch := Batch(im.account, |Chosen(im)|)],
        audit := db.audit + [BatchAudit(im.batch, |im.rows|, |Chosen(im)|)])
  }

  /** Whether the event is one whose commit goes through. */
  predicate Commits(w: World, e: Event) {
    && e.TryCommit?
    && e.who in w.running
    && w.running[e.who].phase.Filtered?
    && !Refused(w.db, w.running[e.who])
  }

  function Step(w: World, e: Event): World {
    match e
    case Start(i, account, rows) =>
      if i in w.running || account !in w.db.accounts then w
      else World(w.db.(nextBatch := w.db.nextBatch + 1),
                 w.running[i := Importer(account, rows, w.db.nextBatch, Started)])
    case ReadHashes(i) =>
      if i !in w.running || !w.running[i].phase.Started? then w
      else
        var im := w.running[i];
        w.(running := w.running[i := im.(phase := Filtered(OwnHashes(w.db, im.account)))])
    case TryCommit(i) =>
      if i !in w.running || !w.running[i].phase.Filtered? then w
      else if Refused(w.db, w.running[i]) then w.(running := w.running - {i})
      else World(Insert(w.db, w.running[i]), w.running - {i})
    case Fail(i) => w.(running := w.running - {i})
  }

  function Run(w: World, events: seq<Event>): World
    decreases |events|
  {
    if events == [] then w else Run(Step(w, events[0]), events[1..])
  }

  ghost predicate Inv(w: World) {
    && DbInv(w.db)
    && (forall i :: i in w.running ==>
          && w.running[i].batch < w.db.nextBatch
          && w.running[i].batch !in w.db.batches
          && (w.running[i].phase.Filtered? ==> w.running[i].phase.existing <= OwnHashes(w.db, w.running[i].account)))
    && (forall i, j :: i in w.running && j in w.running && i != j ==> w.running[i].batch != w.running[j].batch)
  }

  // ---------------------------------------------------------------- when a commit goes through

  /** Keys stored between the read and the commit change the choice iff they hit a chosen row. */
  lemma {:induction false} SelectionStable(early: set<Hash>, late: set<Hash>, account: nat, rows: seq<ParsedRow>)
    requires early <= late && Keys(account, Selected(early, account, rows)) !! late
    ensures Selected(late, account, rows) == Selected(early, account, rows)
  {
    if rows != [] {
      var n := |rows| - 1;
      var before := Selected(early, account, rows[..n]);
      assert forall row :: row in before ==> row in Selected(early, account, rows);
      SelectionStable(early, late, account, rows[..n]);
      var h := ContentKey(account, rows[n]);
      if h !in early && h !in Keys(account, rows[..n]) {
        assert rows[n] in Selected(early, account, rows);
        assert h in Keys(account, Selected(early, account, rows));
      }
    }
  }

  /**
   A commit is refused iff another import of the same account stored one of the chosen keys
   after this one read; imports of different accounts never refuse each other.
   */
  lemma RefusedExactlyWhenOvertaken(w: World, i: nat)
    requires Inv(w) && i in w.running && w.running[i].phase.Filtered?
    ensures var im := w.running[i];
      Refused(w.db, im) <==>
      Keys(im.account, im.rows) * (OwnHashes(w.db, im.account) - im.phase.existing) != {}
  {
    var im := w.running[i];
    var late := OwnHashes(w.db, im.account) - im.phase.existing;
    SelectedKeys(im.phase.existing, im.account, im.rows);
    forall h | h in Keys(im.account, im.rows)
      ensures h in AllHashes(w.db) <==> h in OwnHashes(w.db, im.account)
    {
      var row :| row in im.rows && h == ContentKey(im.account, row);
      OwnHashesSuffice(w.db, im.account, row);
    }
    if Refused(w.db, im) {
      var h :| h in Keys(im.account, Chosen(im)) * AllHashes(w.db);
      assert h in Keys(im.account, im.rows) * late;
    }
    if Keys(im.account, im.rows) * late != {} {
      var h :| h in Keys(im.account, im.rows) * late;
      assert h in Keys(im.account, Chosen(im)) * AllHashes(w.db);
    }
  }

  /** A commit that goes through stores exactly what one undisturbed import would store at that moment. */
  lemma CommitIsAtomicImport(w: World, i: nat)
    requires Inv(w) && Commits(w, TryCommit(i))
    ensures var im := w.running[i];
      Step(w, TryCommit(i)).db == ImportAt(w.db, im.account, im.rows, im.batch)
  {
    var im := w.running[i];
    assert forall h :: h in Keys(im.account, Chosen(im)) && h in AllHashes(w.db) ==>
      h in Keys(im.account, Chosen(im)) * AllHashes(w.db);
    assert OwnHashes(w.db, im.account) <= AllHashes(w.db);
    SelectionStable(im.phase.existing, OwnHashes(w.db, im.account), im.account, im.rows);
  }

  /** Apart from the id sequence, nothing else changes the stored data. */
  lemma OthersChangeNothing(w: World, e: Event)
    requires !Commits(w, e)
    ensures Step(w, e).db == w.db.(nextBatch := Step(w, e).db.nextBatch)
  {
  }

  lemma OwnHashesGrow(db: Db, db': Db, account: nat)
    requires db.txns <= db'.txns
    ensures OwnHashes(db, account) <= OwnHashes(db', account)
  {
    forall h | h in OwnHashes(db, account)
      ensures h in OwnHashes(db', account)
    {
      var t :| t in db.txns && t.account == account && t.hash == Some(h);
      assert t in db'.txns;
    }
  }

  /** Unique hashes, exact batch counts and the importers' bookkeeping survive every step. */
  lemma StepKeeps(w: World, e: Event)
    requires Inv(w)
    ensures Inv(Step(w, e))
  {
    if Commits(w, e) {
      var im := w.running[e.who];
      CommitIsAtomicImport(w, e.who);
      ImportKeeps(w.db, im.account, im.rows, im.batch);
      forall account: nat {
        OwnHashesGrow(w.db, Step(w, e).db, account);
      }
    }
  }

  lemma {:induction false} RunKeeps(w: World, events: seq<Event>)
    requires Inv(w)
    ensures Inv(Run(w, events))
    decreases |events|
  {
    if events != [] {
      StepKeeps(w, events[0]);
      RunKeeps(Step(w, events[0]), events[1..]);
    }
  }

  /** A store with accounts and nothing imported yet. */
  function NothingImported(accounts: set<nat>): World {
    World(Db(accounts, [], map[], [], 1), map[])
  }

  /** So in every state reached from there hashes are unique and every batch counts its transactions. */
  lemma EveryReachableState(accounts: set<nat>, events: seq<Event>)
    ensures Inv(Run(NothingImported(accounts), events))
  {
    RunKeeps(NothingImported(accounts), events);
  }

  // ---------------------------------------------------------------- interleavings are serial

  datatype Job = Job(account: nat, rows: seq<ParsedRow>, batch: nat)

  /** The imports whose commits went through, in commit order. */
  function CommittedJobs(w: World, events: seq<Event>): seq<Job>
    decreases |events|
  {
    if events == [] then []
    else
      (if Commits(w, events[0]) then
         var im := w.running[events[0].who]; [Job(im.account, im.rows, im.batch)]
       else [])
      + CommittedJobs(Step(w, events[0]), events[1..])
  }

  function ImportAll(db: Db, jobs: seq<Job>): Db
    decreases |jobs|
  {
    if jobs == [] then db
    else ImportAll(ImportAt(db, jobs[0].account, jobs[0].rows, jobs[0].batch), jobs[1..])
  }

  lemma {:induction false} SequenceIsIndependent(db: Db, jobs: seq<Job>, next: nat)
    ensures ImportAll(db.(nextBatch := next), jobs) == ImportAll(db, jobs).(nextBatch := next)
    decreases |jobs|
  {
    if jobs != [] {
      var j := jobs[0];
      assert OwnHashes(db.(nextBatch := next), j.account) == OwnHashes(db, j.account);
      SequenceIsIndependent(ImportAt(db, j.account, j.rows, j.batch), jobs[1..], next);
    }
  }

  /**
   Every interleaving of imports leaves the stored transactions, batches and summary rows that
   running its committed imports one after the other, in commit order, would leave.
   */
  lemma {:induction false} InterleavingIsSerial(w: World, events: seq<Event>)
    requires Inv(w)
    ensures var final := Run(w, events).db;
      final == ImportAll(w.db, CommittedJobs(w, events)).(nextBatch := final.nextBatch)
    decreases |events|
  {
    if events != [] {
      var e, w' := events[0], Step(w, events[0]);
      var rest := CommittedJobs(w', events[1..]);
      StepKeeps(w, e);
      InterleavingIsSerial(w', events[1..]);
      if Commits(w, e) {
        var im := w.running[e.who];
        CommitIsAtomicImport(w, e.who);
        var job := Job(im.account, im.rows, im.batch);
        assert CommittedJobs(w, events) == [job] + rest;
        assert ([job] + rest)[1..] == rest;
      } else {
        OthersChangeNothing(w, e);
        assert CommittedJobs(w, events) == rest;
        SequenceIsIndependent(w.db, rest, w'.db.nextBatch);
        assert w'.db == w.db.(nextBatch := w'.db.nextBatch);
      }
    }
  }

  // ---------------------------------------------------------------- order does not matter

  ghost function JobKeys(jobs: seq<Job>): set<Hash> {
    set j, row | j in jobs && row in j.rows :: ContentKey(j.account, row)
  }

  /** Whatever the order, the stored keys end up the old ones and all the files'. */
  lemma {:induction false} HashesAfterAll(db: Db, jobs: seq<Job>)
    ensures AllHashes(ImportAll(db, jobs)) == AllHashes(db) + JobKeys(jobs)
    decreases |jobs|
  {
    if jobs != [] {
      var j := jobs[0];
      HashesAfterImport(db, j.account, j.rows, j.batch);
      HashesAfterAll(ImportAt(db, j.account, j.rows, j.batch), jobs[1..]);
      assert forall k :: k in jobs <==> k == j || k in jobs[1..];
      assert JobKeys(jobs) == Keys(j.account, j.rows) + JobKeys(jobs[1..]);
    }
  }

  function Files(jobs: seq<Job>): seq<(nat, seq<ParsedRow>)> {
    seq(|jobs|, i requires 0 <= i < |jobs| => (jobs[i].account, jobs[i].rows))
  }

  ghost function FileKeys(files: seq<(nat, seq<ParsedRow>)>): set<Hash> {
    set f, row | f in files && row in f.1 :: ContentKey(f.0, row)
  }

  lemma KeysFollowFiles(jobs: seq<Job>)
    ensures JobKeys(jobs) == FileKeys(Files(jobs))
  {
    forall h | h in JobKeys(jobs)
      ensures h in FileKeys(Files(jobs))
    {
      var j, row :| j in jobs && row in j.rows && h == ContentKey(j.account, row);
      var i :| 0 <= i < |jobs| && jobs[i] == j;
      assert Files(jobs)[i] in Files(jobs);
    }
    forall h | h in FileKeys(Files(jobs))
      ensures h in JobKeys(jobs)
    {
      var f, row :| f in Files(jobs) && row in f.1 && h == ContentKey(f.0, row);
      var i :| 0 <= i < |jobs| && Files(jobs)[i] == f;
      assert jobs[i] in jobs;
    }
  }

  /** Two interleavings that commit the same files store the same keys, in whatever order. */
  lemma SameFilesSameKeys(w: World, events1: seq<Event>, events2: seq<Event>)
    requires Inv(w)
    requires multiset(Files(CommittedJobs(w, events1))) == multiset(Files(CommittedJobs(w, events2)))
    ensures AllHashes(Run(w, events1).db) == AllHashes(Run(w, events2).db)
  {
    hide Run, CommittedJobs, ImportAll, JobKeys, Inv;
    var jobs1, jobs2 := CommittedJobs(w, events1), CommittedJobs(w, events2);
    InterleavingIsSerial(w, events1);
    InterleavingIsSerial(w, events2);
    HashesAfterAll(w.db, jobs1);
    HashesAfterAll(w.db, jobs2);
    KeysFollowFiles(jobs1);
    KeysFollowFiles(jobs2);
    assert forall f :: f in Files(jobs1) <==> f in multiset(Files(jobs1));
    assert forall f :: f in Files(jobs2) <==> f in multiset(Files(jobs2));
    assert FileKeys(Files(jobs1)) == FileKeys(Files(jobs2));
  }
}
