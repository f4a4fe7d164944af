/** The supervisor's tick, cancellation and commit: server/src/wifi_recovery_worker.cpp. */
module RecoveryWorker {
  import opened Octets
  import opened Profile
  import opened ConfigDraft
  import opened Records
  import opened Protocol
  import opened Runs
  import opened Machine
  import opened Platform
  import opened NetplanFiles
  import opened Journal

  ghost predicate Idle(machine: Machine, actor: nat)
    reads machine
  {
    machine.Valid() && machine.world.lock != Some(actor)
  }

  /** What a whole operation under the lock leaves behind when it restores or does nothing. */
  ghost predicate RestoredOrNot(w: World, w': World, actor: nat) {
    && Onward(w, w') && w.installed <= w'.installed && w'.txs == w.txs && w'.lock != Some(actor)
    && (w.lock.Some? ==> w' == w)
    && (!IsPending(w.journal.visible) ==> w'.journal == w.journal && w'.file == w.file)
  }

  /** wifi_managed_recovery_tick */
  method ManagedRecoveryTick(machine: Machine, platform: WifiPlatform, actor: nat) returns (outcome: RecoveryOutcome)
    requires Idle(machine, actor)
    modifies machine`world, platform`granted
    ensures Idle(machine, actor) && RestoredOrNot(old(machine.world), machine.world, actor)
    ensures outcome == Nothing ==> !IsPending(old(machine.world).journal.visible)
    ensures outcome == Waiting ==> IsPending(machine.world.journal.visible) && !Due(machine.world, machine.world.journal.visible.value)
    ensures !IsPending(old(machine.world).journal.visible) || !Due(machine.world, old(machine.world).journal.visible.value) ==>
      machine.world.journal == old(machine.world).journal && machine.world.file == old(machine.world).file &&
      platform.granted == old(platform.granted)
    ensures outcome == RestoredNow ==> IsPending(old(machine.world).journal.visible)
    ensures outcome == RestoredNow ==> platform.granted == old(platform.granted) + [NetworkRestored]
    ensures outcome == RestoredNow ==> Undone(machine.world, old(machine.world).journal.visible.value)
    ensures machine.healthy && platform.willing && old(machine.world).lock.None? && OverduePending(old(machine.world))
      ==> outcome == RestoredNow
  {
    var ok := machine.TakeLock(actor);
    if !ok { return Failed; }
    var boot, now;
    ok, boot, now := machine.RecoveryClock(actor);
    if ok {
      var journal := new WifiJournal(machine, actor);
      var restore := new ManagedRestore(machine, actor, platform);
      outcome := journal.RecoverDue(boot, now, restore);
    } else {
      outcome := Failed;
    }
    machine.DropLock(actor);
  }

  /** wifi_managed_cancel */
  method ManagedCancel(machine: Machine, platform: WifiPlatform, actor: nat, transaction: Bytes)
    returns (outcome: RecoveryOutcome)
    requires Idle(machine, actor) && Owns(machine.world, actor, transaction)
    modifies machine`world, platform`granted
    ensures Idle(machine, actor) && RestoredOrNot(old(machine.world), machine.world, actor)
    ensures outcome != Waiting
    ensures outcome == Nothing ==> transaction in VisibleIn(machine.world, Restored)
    ensures old(machine.world).lock.Some? ==> outcome == Failed
    ensures !old(machine.world).PendingOf(transaction) ==>
      machine.world.journal == old(machine.world).journal && machine.world.file == old(machine.world).file
    ensures outcome == RestoredNow ==> old(machine.world).PendingOf(transaction)
    ensures outcome == RestoredNow ==> platform.granted == old(platform.granted) + [NetworkRestored]
    ensures outcome == RestoredNow ==> Undone(machine.world, old(machine.world).journal.visible.value)
    ensures machine.healthy && old(machine.world).lock.None? && transaction in VisibleIn(old(machine.world), Restored)
      ==> outcome == Nothing || old(machine.world).journal.visible.value.bootId != machine.world.bootId
    ensures machine.healthy && platform.willing && old(machine.world).lock.None? && old(machine.world).PendingOf(transaction)
      ==> outcome == RestoredNow || old(machine.world).journal.visible.value.bootId != machine.world.bootId
  {
    var ok := machine.TakeLock(actor);
    if !ok { return Failed; }
    var boot, now;
    ok, boot, now := machine.RecoveryClock(actor);
    if ok {
      var journal := new WifiJournal(machine, actor);
      var restore := new ManagedRestore(machine, actor, platform);
      outcome := journal.Cancel(transaction, boot, restore);
    } else {
      outcome := Failed;
    }
    machine.DropLock(actor);
  }

  /** The committed record of a transaction, durable, with exactly its candidate on disk. */
  ghost predicate Settled(w: World, transaction: Bytes) {
    && w.journal.visible.Some? && w.journal.visible.value.phase == Committed
    && w.journal.visible.value.transaction == transaction && w.journal.visible.value.previous == []
    && w.journal.durable == {w.journal.visible}
    && transaction in w.settled && transaction in w.txs
    && w.file == Entry(Some(w.txs[transaction].candidate), {Some(w.txs[transaction].candidate)})
  }

  /** The visible record is the restored record of the transaction, and the file is, durably, its original. */
  ghost predicate BackOnDisk(w: World, transaction: Bytes) {
    && transaction in VisibleIn(w, Restored)
    && transaction in w.restored && transaction in w.txs
    && w.file == Entry(w.txs[transaction].original, {w.txs[transaction].original})
  }

  /** A visible restored record vouches for every file that may survive. */
  lemma RestoredIsBack(w: World, transaction: Bytes)
    requires Reachable(w) && transaction in VisibleIn(w, Restored)
    ensures BackOnDisk(w, transaction)
  {
    ReachableInv(w);
    forall f | f in w.file.durable ensures f == w.txs[transaction].original {
      assert Agrees(w, w.journal.visible, f);
    }
  }

  /** A commit leaves the file alone; it may leave the committed record without its fsync. */
  ghost predicate CommittedOrNot(w: World, w': World, actor: nat, transaction: Bytes) {
    && Onward(w, w') && w'.installed == w.installed && w'.txs == w.txs && w'.restored == w.restored
    && w'.file == w.file && w'.lock != Some(actor)
    && (w.lock.Some? || !w.PendingOf(transaction) ==> w'.journal == w.journal)
  }

  /** The owner's own transaction, as far as commit needs to know it. */
  ghost predicate Confirmable(w: World, g: Layout, actor: nat, transaction: Bytes, target: WifiProfile) {
    && Owns(w, actor, transaction) && ValidProfile(target)
    && transaction in w.txs && transaction in w.installed
    && w.txs[transaction].candidate == Yaml(g, target)
  }

  lemma CommitSettles(w: World, w': World, a: nat)
    requires Reachable(w) && Completed(w, w', MarkCommitted(a), SyncJournal(a))
    ensures Settled(w', w.journal.visible.value.transaction)
  {
    ReachableStep(w, MarkCommitted(a));
    ReachableStep(Apply(w, MarkCommitted(a)), SyncJournal(a));
    ReachableInv(w');
    var t := w.journal.visible.value.transaction;
    forall f | f in w'.file.durable ensures f == Some(w'.txs[t].candidate) {
      assert Agrees(w', w'.journal.visible, f);
    }
  }

  /** The commit can be lost under the program's own reader, with the draft of any profile as candidate. */
  lemma ConfirmedThenLost(g: Layout, p: WifiProfile) returns (w: World, steps: seq<Step>)
    requires ValidProfile(p)
    ensures Reachable(w) && StrictReader(w.accepts, g) && w.file.visible == Some(Yaml(g, p))
    ensures Confirmable(w, g, 0, FirstRecord().transaction, p) && Lost(w, FirstRecord().transaction, steps)
  {
    var accepts := (b: Bytes) => ReadYaml(g, b).Some?;
    assert accepts(Yaml(g, p)) by { YamlRoundTrip(g, p); }
    assert StrictReader(accepts, g);
    hide Reachable, StrictReader, ReadYaml, Yaml, ValidProfile, Lost, FirstRecord;
    w, steps := CommitLost(accepts, Yaml(g, p));
  }

  /** Only time, readings and checks have moved. */
  ghost predicate OnlyWatched(w: World, w': World) {
    w' == w.(clock := w'.clock, reading := w'.reading, live := w'.live) && w'.clock >= w.clock
  }

  /** Everything a commit may touch: the record and its history. */
  ghost predicate OnlyCommitted(w: World, w': World) {
    && w' == w.(journal := w'.journal, armed := w'.armed, committed := w'.committed, settled := w'.settled)
    && w.armed <= w'.armed && w.committed <= w'.committed && w.settled <= w'.settled
  }

  lemma CommitTouches(w: World, w': World, a: nat)
    requires Completed(w, w', MarkCommitted(a), SyncJournal(a)) || Abandoned(w, w', MarkCommitted(a))
    ensures OnlyCommitted(w, w')
  {}

  /** A commit is recorded only in time, by a reading taken after the live checks. */
  lemma CommitInTime(w: World, w': World, a: nat)
    requires Completed(w, w', MarkCommitted(a), SyncJournal(a))
    ensures RecordedInTime(w.journal.visible, w') && w'.file == w.file
  {}

  /** The clock was read after the live checks, in the record's boot and before its deadline. */
  ghost predicate RecordedInTime(pending: Option<RecoveryRecord>, w: World) {
    && pending.Some? && pending.value.bootId == w.bootId
    && w.live && w.reading.Some? && w.reading.value < pending.value.deadline
  }

  /** The file on disk is the expected draft. */
  method Persists(files: NetplanFiles, expected: Bytes) returns (ok: bool)
    requires files.machine.Valid()
    ensures ok ==> files.machine.world.file.visible == Some(expected)
    ensures files.machine.healthy && files.machine.world.file.visible == Some(expected) && files.machine.world.accepts(expected) ==> ok
  {
    var persisted;
    ok, persisted := files.Backup();
    ok := ok && persisted.Some? && persisted.value == expected;
  }

  ghost predicate ShowsDraft(w: World, transaction: Bytes, expected: Bytes) {
    w.PendingOf(transaction) && w.file.visible == Some(expected) && w.accepts(expected)
  }

  lemma TargetDrafted(w: World, g: Layout, actor: nat, transaction: Bytes, target: WifiProfile)
    requires Confirmable(w, g, actor, transaction, target) && StrictReader(w.accepts, g)
    ensures Printable(target) && w.accepts(Yaml(g, target))
  {
    YamlRoundTrip(g, target);
  }

  /** Before the live checks: the record, the clock, the file. */
  method Presentable(machine: Machine, actor: nat, transaction: Bytes, files: NetplanFiles, expected: Bytes) returns (ok: bool)
    requires machine.Valid() && machine.world.lock == Some(actor) && files.machine == machine
    modifies machine`world
    ensures machine.Valid() && OnlyWatched(old(machine.world), machine.world)
    ensures ok ==> machine.world.PendingOf(transaction)
    ensures machine.healthy && ShowsDraft(machine.world, transaction, expected) ==>
      ok || Due(machine.world, machine.world.journal.visible.value)
  {
    var journal := new WifiJournal(machine, actor);
    var record, boot, now;
    ok, record := journal.Load();
    if !ok { return; }
    ok, boot, now := machine.RecoveryClock(actor);
    if !ok { return; }
    if !IsPending(record) || record.value.transaction != transaction || record.value.bootId != boot ||
       now >= record.value.deadline { return false; }
    ok := machine.Attempt();
    if ok { ok := Persists(files, expected); }
  }

  /** The live checks, which then count as passed until the lock is dropped. */
  method VerifyLive(machine: Machine, platform: WifiPlatform, actor: nat, target: WifiProfile) returns (ok: bool)
    requires machine.Valid() && machine.world.lock == Some(actor)
    modifies machine`world, platform`granted
    ensures machine.Valid() && OnlyWatched(old(machine.world), machine.world)
    ensures ok ==> platform.granted == old(platform.granted) + [EthernetUp, Preflighted(target), WatchdogArmed, Connected(target)]
    ensures ok ==> machine.world.live
    ensures platform.willing ==> ok
  {
    ok := platform.SafetyChecks(target);
    if !ok { return; }
    var link := platform.ProbeTarget(target);
    if link != LinkReady { return false; }
    machine.Take(LiveChecks(actor));
  }

  /** Everything before the record is written: the file, the live checks, the file again, and only then the clock. */
  method Verified(machine: Machine, platform: WifiPlatform, actor: nat, transaction: Bytes, target: WifiProfile,
      files: NetplanFiles, expected: Bytes) returns (ok: bool, boot: Bytes, now: nat)
    requires machine.Valid() && machine.world.lock == Some(actor) && files.machine == machine
    modifies machine`world, platform`granted
    ensures machine.Valid() && OnlyWatched(old(machine.world), machine.world)
    ensures ok ==> machine.world.PendingOf(transaction) && machine.world.file.visible == Some(expected)
    ensures ok ==> machine.world.live && machine.world.reading == Some(now) && boot == machine.world.bootId
    ensures ok ==> now == machine.world.clock
    ensures ok ==> platform.granted == old(platform.granted) + [EthernetUp, Preflighted(target), WatchdogArmed, Connected(target)]
    ensures machine.healthy && platform.willing && ShowsDraft(old(machine.world), transaction, expected) ==>
      ok || Due(machine.world, machine.world.journal.visible.value)
  {
    hide Reachable, StrictReader, IsBoot;
    boot, now := [], 0;
    ok := Presentable(machine, actor, transaction, files, expected);
    if ok { ok := VerifyLive(machine, platform, actor, target); }
    if ok { ok := Persists(files, expected); }
    if ok { ok, boot, now := machine.RecoveryClock(actor); }
  }

  /** The transaction is pending with its candidate in the file. */
  ghost predicate Awaiting(w: World, transaction: Bytes) {
    && w.PendingOf(transaction) && transaction in w.txs
    && w.file.visible == Some(w.txs[transaction].candidate)
  }

  /** wifi_managed_commit, once the lock is held. */
  method ConfirmUnderLock(machine: Machine, platform: WifiPlatform, actor: nat, transaction: Bytes, target: WifiProfile)
    returns (ok: bool)
    requires machine.Valid() && machine.world.lock == Some(actor)
    requires Confirmable(machine.world, machine.layout, actor, transaction, target)
    modifies machine`world, platform`granted
    ensures machine.Valid()
    ensures exists w :: OnlyWatched(old(machine.world), w) && OnlyCommitted(w, machine.world)
    ensures !old(machine.world).PendingOf(transaction) ==> !ok && machine.world.journal == old(machine.world).journal
    ensures ok ==> platform.granted == old(platform.granted) + [EthernetUp, Preflighted(target), WatchdogArmed, Connected(target)]
    ensures ok ==> Settled(machine.world, transaction)
    ensures ok ==> old(machine.world).file.visible == Some(Yaml(machine.layout, target))
    ensures ok ==> RecordedInTime(old(machine.world).journal.visible, machine.world)
    ensures machine.healthy && platform.willing && Awaiting(old(machine.world), transaction)
      ==> ok || Due(machine.world, old(machine.world).journal.visible.value)
  {
    TargetDrafted(machine.world, machine.layout, actor, transaction, target);
    hide Yaml, ReadYaml, Reachable, StrictReader, Printable, ValidProfile, Settled, Completed, Abandoned, Enabled, Apply, RecordedInTime,
      Confirmable;
    var files := new NetplanFiles(machine, actor);
    var expected := MakeWifiConfigDraft(machine.layout, target);
    var boot, now;
    ok := expected.Some?;
    if ok { ok, boot, now := Verified(machine, platform, actor, transaction, target, files, expected.value.netplanYaml); }
    ghost var w := machine.world;
    assert OnlyWatched(old(machine.world), w);
    if ok {
      var journal := new WifiJournal(machine, actor);
      ok := journal.Commit(transaction, boot, now);
      CommitTouches(w, machine.world, actor);
      if ok {
        CommitSettles(w, machine.world, actor);
        CommitInTime(w, machine.world, actor);
      }
    }
    assert OnlyCommitted(w, machine.world);
  }

  /** wifi_managed_commit */
  method ManagedCommit(machine: Machine, platform: WifiPlatform, actor: nat, transaction: Bytes, target: WifiProfile)
    returns (ok: bool)
    requires Idle(machine, actor)
    requires Confirmable(machine.world, machine.layout, actor, transaction, target)
    modifies machine`world, platform`granted
    ensures Idle(machine, actor) && CommittedOrNot(old(machine.world), machine.world, actor, transaction)
    ensures ok ==> platform.granted == old(platform.granted) + [EthernetUp, Preflighted(target), WatchdogArmed, Connected(target)]
    ensures ok ==> old(machine.world).PendingOf(transaction) && Settled(machine.world, transaction)
    ensures machine.healthy && platform.willing && old(machine.world).lock.None? && Awaiting(old(machine.world), transaction)
      ==> ok || Due(machine.world, old(machine.world).journal.visible.value)
  {
    ok := machine.TakeLock(actor);
    if !ok { return; }
    ok := ConfirmUnderLock(machine, platform, actor, transaction, target);
    machine.DropLock(actor);
  }
}
