/**
  * The crash-safe Wi-Fi change transaction as a transition system. One step is one
  * visible effect: a rename, an unlink, a directory fsync, taking or losing the
  * journal lock, drawing an identity, time passing, or a power loss. A process may
  * die between any two steps (its lock is then released); a power loss keeps, for
  * each directory separately, any entry the disk might already hold.
  */
module Protocol {
  import opened Octets
  import opened Records

  /** A directory entry: what processes see, and every value a power loss may leave. */
  datatype Entry<T(==)> = Entry(visible: T, durable: set<T>) {
    function Rename(v: T): Entry<T> { Entry(v, durable + {v}) }
    function Sync(): Entry<T> { Entry(visible, {visible}) }
  }

  /** What a transaction set out to do, recorded when its journal entry appears. */
  datatype Tx = Tx(original: Option<Bytes>, candidate: Bytes, bootId: Bytes, deadline: int)

  datatype World = World(
    journal: Entry<Option<RecoveryRecord>>,
    file: Entry<Option<Bytes>>,
    bootId: Bytes,
    clock: int,
    lock: Option<nat>,
    // Since the lock was taken: were the live checks passed, and what did the clock last say after them?
    live: bool,
    reading: Option<int>,
    // History: never read by the program.
    initial: Option<Bytes>,
    boots: set<Bytes>,
    drawn: map<Bytes, nat>,
    txs: map<Bytes, Tx>,
    armed: set<Bytes>,      // pending record made durable
    installed: set<Bytes>,  // candidate made durable since it was last renamed in
    committed: set<Bytes>,  // committed record renamed in
    settled: set<Bytes>,    // committed record made durable
    restored: set<Bytes>,   // restored record renamed in
    accepts: Bytes -> bool) // the strict reader guarding the managed file
  {
    predicate PendingOf(t: Bytes) {
      journal.visible.Some? && journal.visible.value.phase == Pending && journal.visible.value.transaction == t
    }
  }

  datatype Step =
    | Acquire(actor: nat)
    | Release(actor: nat)       // close, or death of the process
    | Pass(ms: nat)
    | PowerLoss(kept: Option<RecoveryRecord>, content: Option<Bytes>, newBoot: Bytes, start: nat)
    | Draw(actor: nat, id: Bytes)
    | ReadClock(actor: nat)
    | LiveChecks(actor: nat)
    | Begin(actor: nat, record: RecoveryRecord, candidate: Bytes)
    | SyncJournal(actor: nat)
    | Install(actor: nat)
    | SyncFile(actor: nat)
    | Undo(actor: nat)
    | MarkCommitted(actor: nat)
    | MarkRestored(actor: nat)

  predicate IsPending(j: Option<RecoveryRecord>) {
    j.Some? && j.value.phase == Pending
  }

  predicate Due(w: World, r: RecoveryRecord) {
    r.bootId != w.bootId || w.clock >= r.deadline
  }

  predicate Owns(w: World, a: nat, t: Bytes) {
    t in w.drawn && w.drawn[t] == a
  }

  /** Who may undo a pending transaction: its owner, or anyone once it is due. */
  predicate MayUndo(w: World, a: nat, r: RecoveryRecord) {
    Due(w, r) || Owns(w, a, r.transaction)
  }

  predicate Enabled(w: World, s: Step) {
    match s
    case Acquire(a) => w.lock.None?
    case Release(a) => true
    case Pass(_) => true
    case PowerLoss(j, f, boot, _) =>
      j in w.journal.durable && f in w.file.durable && IsBoot(boot) && boot !in w.boots
    case Draw(a, id) => id !in w.drawn
    case ReadClock(a) => w.lock == Some(a)
    case LiveChecks(a) => w.lock == Some(a)
    case Begin(a, r, candidate) =>
      && w.lock == Some(a)
      && !IsPending(w.journal.visible)
      && ValidRecord(r) && r.phase == Pending
      && Owns(w, a, r.transaction) && r.transaction !in w.txs
      && r.bootId == w.bootId
      && r.Backup() == w.file.visible
      && w.accepts(candidate) && (r.Backup().Some? ==> w.accepts(r.Backup().value))
    case SyncJournal(a) => w.lock == Some(a)
    case Install(a) =>
      && w.lock == Some(a)
      && IsPending(w.journal.visible)
      && var t := w.journal.visible.value.transaction;
      && Owns(w, a, t) && t in w.armed && t in w.txs
      && w.file.visible == w.txs[t].original
    case SyncFile(a) => w.lock == Some(a)
    case Undo(a) =>
      && w.lock == Some(a)
      && IsPending(w.journal.visible)
      && MayUndo(w, a, w.journal.visible.value)
    case MarkCommitted(a) =>
      && w.lock == Some(a)
      && IsPending(w.journal.visible)
      && var r := w.journal.visible.value;
      && Owns(w, a, r.transaction) && r.transaction in w.installed && r.transaction in w.txs
      && w.file.visible == Some(w.txs[r.transaction].candidate)
      && r.bootId == w.bootId
      && w.live && w.reading.Some? && w.reading.value < r.deadline
    case MarkRestored(a) =>
      && w.lock == Some(a)
      && IsPending(w.journal.visible)
      && MayUndo(w, a, w.journal.visible.value)
      && w.file.durable == {w.journal.visible.value.Backup()}
  }

  /** The transaction whose armed pending record is visible while the file shows its candidate. */
  function Landed(w: World): set<Bytes> {
    if IsPending(w.journal.visible) && w.journal.visible.value.transaction in w.armed &&
       w.journal.visible.value.transaction in w.txs &&
       w.file.visible == Some(w.txs[w.journal.visible.value.transaction].candidate)
    then {w.journal.visible.value.transaction} else {}
  }

  function VisibleIn(w: World, p: Phase): set<Bytes> {
    if w.journal.visible.Some? && w.journal.visible.value.phase == p
    then {w.journal.visible.value.transaction} else {}
  }

  function Apply(w: World, s: Step): World
    requires Enabled(w, s)
  {
    match s
    case Acquire(a) => w.(lock := Some(a), live := false, reading := None)
    case Release(a) => if w.lock == Some(a) then w.(lock := None) else w
    case Pass(ms) => w.(clock := w.clock + ms)
    case PowerLoss(j, f, boot, start) =>
      w.(journal := Entry(j, {j}), file := Entry(f, {f}), lock := None,
         bootId := boot, boots := w.boots + {boot}, clock := start)
    case Draw(a, id) => w.(drawn := w.drawn[id := a])
    case ReadClock(a) => w.(reading := Some(w.clock))
    case LiveChecks(a) => w.(live := true, reading := None)
    case Begin(a, r, candidate) =>
      w.(journal := w.journal.Rename(Some(r)),
         txs := w.txs[r.transaction := Tx(w.file.visible, candidate, r.bootId, r.deadline)])
    case SyncJournal(a) =>
      w.(journal := w.journal.Sync(),
         armed := w.armed + VisibleIn(w, Pending),
         settled := w.settled + VisibleIn(w, Committed))
    case Install(a) =>
      var t := w.journal.visible.value.transaction;
      w.(file := w.file.Rename(Some(w.txs[t].candidate)), installed := w.installed - {t})
    case SyncFile(a) =>
      w.(file := w.file.Sync(), installed := w.installed + Landed(w))
    case Undo(a) => w.(file := w.file.Rename(w.journal.visible.value.Backup()))
    case MarkCommitted(a) =>
      var r := w.journal.visible.value;
      w.(journal := w.journal.Rename(Some(r.Resolve(Committed))), committed := w.committed + {r.transaction})
    case MarkRestored(a) =>
      var r := w.journal.visible.value;
      w.(journal := w.journal.Rename(Some(r.Resolve(Restored))), restored := w.restored + {r.transaction})
  }

  /** A freshly started machine: no journal, and whatever managed file the installer left, acceptable or not. */
  ghost predicate Init(w: World) {
    && w.journal == Entry(None, {None})
    && w.file == Entry(w.initial, {w.initial})
    && IsBoot(w.bootId) && w.boots == {w.bootId}
    && w.clock >= 0
    && w.lock.None? && w.drawn == map[] && w.txs == map[]
    && w.armed == {} && w.installed == {} && w.committed == {} && w.settled == {} && w.restored == {}
  }

  /** One possible content of the journal agrees with one possible content of the file. */
  ghost predicate Agrees(w: World, j: Option<RecoveryRecord>, f: Option<Bytes>) {
    match j
    case None => f == w.initial
    case Some(r) =>
      && r.transaction in w.txs
      && var tx := w.txs[r.transaction];
      match r.phase
      case Pending => r.Backup() == tx.original && (f == tx.original || f == Some(tx.candidate))
      case Committed => f == Some(tx.candidate)
      case Restored => f == tx.original
  }

  ghost predicate Recorded(w: World, j: Option<RecoveryRecord>) {
    j.Some? ==>
      && ValidRecord(j.value)
      && j.value.transaction in w.txs
      && w.txs[j.value.transaction].bootId == j.value.bootId
      && w.txs[j.value.transaction].deadline == j.value.deadline
  }

  ghost predicate Accepted(w: World, f: Option<Bytes>) {
    f.Some? ==> w.accepts(f.value)
  }

  /** Whatever survives a power loss, journal and file agree. */
  ghost predicate Crashproof(w: World) {
    forall j, f :: j in w.journal.durable && f in w.file.durable ==> Agrees(w, j, f)
  }

  /** Everything the disk may hold is loadable, at least from the first transaction on, and belongs to a recorded one. */
  ghost predicate Loadable(w: World) {
    && w.journal.visible in w.journal.durable
    && w.file.visible in w.file.durable
    && (forall j :: j in w.journal.durable ==> Recorded(w, j))
    && (w.txs.Keys != {} ==> forall f :: f in w.file.durable ==> Accepted(w, f))
  }

  ghost predicate Booked(w: World) {
    && IsBoot(w.bootId) && w.bootId in w.boots && w.clock >= 0
    && (forall t :: t in w.txs ==> t in w.drawn && w.txs[t].bootId in w.boots)
    && (forall t :: t in w.txs ==> Accepted(w, w.txs[t].original) && w.accepts(w.txs[t].candidate))
    && w.armed <= w.txs.Keys && w.restored <= w.txs.Keys
    && w.installed <= w.armed && w.settled <= w.committed <= w.armed
  }

  /** An armed pending record is the only one the disk can hold. */
  ghost predicate ArmedAlone(w: World) {
    IsPending(w.journal.visible) && w.journal.visible.value.transaction in w.armed
    ==> w.journal.durable == {w.journal.visible}
  }

  /** Until a pending record is armed, the file has not been touched. */
  ghost predicate UntouchedUnarmed(w: World) {
    forall j :: j in w.journal.durable ==>
      (IsPending(j) && j.value.transaction !in w.armed ==> w.file.durable == {j.value.Backup()})
  }

  /** A visible candidate whose installation was synced is durable. */
  ghost predicate InstalledDurable(w: World) {
    IsPending(w.journal.visible) && w.journal.visible.value.transaction in w.installed &&
    w.journal.visible.value.transaction in Landed(w)
    ==> w.file.durable == {w.file.visible}
  }

  /** A restored transaction is pending again only in a later boot. */
  ghost predicate RestoredStale(w: World) {
    IsPending(w.journal.visible) && w.journal.visible.value.transaction in w.restored
    ==> w.journal.visible.value.bootId != w.bootId
  }

  /** In its own boot a transaction is decided once: a committed one is not pending, nor ever restored. */
  ghost predicate DecidedOnce(w: World) {
    && (IsPending(w.journal.visible) && w.journal.visible.value.transaction in w.committed
        ==> w.journal.visible.value.bootId != w.bootId)
    && forall t :: t in w.committed && t in w.restored ==> t in w.txs && w.txs[t].bootId != w.bootId
  }

  /** A settled transaction is never pending nor restored again. */
  ghost predicate SettledForGood(w: World) {
    && w.settled !! w.restored
    && forall j :: j in w.journal.durable ==>
         (j.Some? && j.value.transaction in w.settled ==> j.value.phase == Committed)
  }

  /** Resolved records tell the truth about what happened. */
  ghost predicate Truthful(w: World) {
    forall j :: j in w.journal.durable && j.Some? ==>
      (j.value.phase == Committed ==> j.value.transaction in w.committed - w.restored) &&
      (j.value.phase == Restored ==> j.value.transaction in w.restored)
  }

  ghost predicate Inv(w: World) {
    && Loadable(w)
    && Booked(w)
    && Crashproof(w)
    && ArmedAlone(w)
    && UntouchedUnarmed(w)
    && InstalledDurable(w)
    && RestoredStale(w)
    && DecidedOnce(w)
    && SettledForGood(w)
    && Truthful(w)
  }

  lemma InitInv(w: World)
    requires Init(w)
    ensures Inv(w)
  {}

  lemma PowerLossInv(w: World, s: Step)
    requires Inv(w) && s.PowerLoss? && Enabled(w, s)
    ensures Inv(Apply(w, s))
  {}

  lemma BeginInv(w: World, s: Step)
    requires Inv(w) && s.Begin? && Enabled(w, s)
    ensures Inv(Apply(w, s))
  {
    var w' := Apply(w, s);
    // a resolved (or absent) record pins the whole file entry
    assert w.file.durable == {w.file.visible} by {
      forall f | f in w.file.durable ensures f == w.file.visible {
        assert Agrees(w, w.journal.visible, f) && Agrees(w, w.journal.visible, w.file.visible);
      }
    }
    forall j, f | j in w'.journal.durable && f in w'.file.durable ensures Agrees(w', j, f) {
      if j in w.journal.durable { assert Agrees(w, j, f); }
    }
    assert UntouchedUnarmed(w');
  }

  lemma SyncJournalInv(w: World, s: Step)
    requires Inv(w) && s.SyncJournal? && Enabled(w, s)
    ensures Inv(Apply(w, s))
  {
    var w' := Apply(w, s);
    assert Agrees(w, w.journal.visible, w.file.visible);
    forall j, f | j in w'.journal.durable && f in w'.file.durable ensures Agrees(w', j, f) {
      assert Agrees(w, j, f);
    }
  }

  lemma InstallInv(w: World, s: Step)
    requires Inv(w) && s.Install? && Enabled(w, s)
    ensures Inv(Apply(w, s))
  {}

  lemma SyncFileInv(w: World, s: Step)
    requires Inv(w) && s.SyncFile? && Enabled(w, s)
    ensures Inv(Apply(w, s))
  {}

  lemma UndoInv(w: World, s: Step)
    requires Inv(w) && s.Undo? && Enabled(w, s)
    ensures Inv(Apply(w, s))
  {
    var w' := Apply(w, s);
    var r := w.journal.visible.value;
    forall j, f | j in w'.journal.durable && f in w'.file.durable ensures Agrees(w', j, f) {
      assert Agrees(w, w.journal.visible, w.file.visible);
      if f in w.file.durable { assert Agrees(w, j, f); }
    }
    if r.transaction !in w.armed {
      assert w'.file.durable == w.file.durable;
    }
    assert UntouchedUnarmed(w');
    assert InstalledDurable(w') by {
      if w'.file.visible == Some(w.txs[r.transaction].candidate) {
        forall f | f in w.file.durable ensures f == w'.file.visible {
          assert Agrees(w, w.journal.visible, f);
        }
      }
    }
  }

  lemma MarkCommittedInv(w: World, s: Step)
    requires Inv(w) && s.MarkCommitted? && Enabled(w, s)
    ensures Inv(Apply(w, s))
  {}

  lemma MarkRestoredInv(w: World, s: Step)
    requires Inv(w) && s.MarkRestored? && Enabled(w, s)
    ensures Inv(Apply(w, s))
  {
    var w' := Apply(w, s);
    forall j, f | j in w'.journal.durable && f in w'.file.durable ensures Agrees(w', j, f) {
      assert Agrees(w, w.journal.visible, f);
      if j in w.journal.durable { assert Agrees(w, j, f); }
    }
    assert UntouchedUnarmed(w') && Truthful(w');
  }

  /** The steps that touch neither the disk nor its history. */
  predicate Housekeeping(s: Step) {
    s.Acquire? || s.Release? || s.Pass? || s.Draw? || s.ReadClock? || s.LiveChecks?
  }

  lemma HousekeepingInv(w: World, s: Step)
    requires Inv(w) && Housekeeping(s) && Enabled(w, s)
    ensures Inv(Apply(w, s))
  {
    var w' := Apply(w, s);
    forall j, f | j in w'.journal.durable && f in w'.file.durable ensures Agrees(w', j, f) {
      assert Agrees(w, j, f);
    }
  }

  lemma StepInv(w: World, s: Step)
    requires Inv(w) && Enabled(w, s)
    ensures Inv(Apply(w, s))
  {
    if Housekeeping(s) { HousekeepingInv(w, s); }
    else if s.PowerLoss? { PowerLossInv(w, s); }
    else if s.Begin? { BeginInv(w, s); }
    else if s.SyncJournal? { SyncJournalInv(w, s); }
    else if s.Install? { InstallInv(w, s); }
    else if s.SyncFile? { SyncFileInv(w, s); }
    else if s.Undo? { UndoInv(w, s); }
    else if s.MarkCommitted? { MarkCommittedInv(w, s); }
    else { MarkRestoredInv(w, s); }
  }
}
