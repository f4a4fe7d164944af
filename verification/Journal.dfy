/** WifiJournal: server/src/wifi_journal.cpp. An open journal holds the lock. */
module Journal {
  import opened Octets
  import opened Records
  import opened JournalCodec
  import opened Protocol
  import opened Runs
  import opened Machine
  import opened NetplanFiles
  import opened Platform

  datatype RecoveryOutcome = Nothing | Waiting | RestoredNow | Failed

  /** hex_string */
  method HexString(text: Bytes, length: nat) returns (ok: bool)
    ensures ok <==> |text| == length && IsHex(text)
  {
    if |text| != length { return false; }
    for i := 0 to |text|
      invariant forall k :: 0 <= k < i ==> Unhex(text[k]) >= 0
    {
      if Unhex(text[i]) < 0 { return false; }
    }
    return true;
  }

  function DashesBefore(i: nat): (n: nat) {
    if i > 23 then 4 else if i > 18 then 3 else if i > 13 then 2 else if i > 8 then 1 else 0
  }

  /** boot_valid: the dashes are checked in place, the digits are gathered and checked together. */
  method BootValid(boot: Bytes) returns (ok: bool)
    ensures ok <==> IsBoot(boot)
  {
    if |boot| != BOOT_SIZE { return false; }
    var digits: Bytes := [];
    for i := 0 to BOOT_SIZE
      invariant |digits| == i - DashesBefore(i)
      invariant forall k :: 0 <= k < i && IsDash(k) ==> boot[k] == 45
      invariant IsHex(digits) <==> forall k :: 0 <= k < i && !IsDash(k) ==> Unhex(boot[k]) >= 0
    {
      if IsDash(i) {
        if boot[i] != 45 { return false; }
      } else {
        ghost var before := digits;
        digits := digits + [boot[i]];
        assert digits[|before|] == boot[i] && digits[..|before|] == before;
        assert IsHex(digits) <==> IsHex(before) && Unhex(boot[i]) >= 0 by {
          forall k | 0 <= k < |before| ensures digits[k] == before[k] {}
        }
      }
    }
    ok := HexString(digits, 32);
  }

  /** valid */
  method Valid(record: RecoveryRecord) returns (ok: bool)
    ensures ok <==> ValidRecord(record)
  {
    var transaction := HexString(record.transaction, TRANSACTION_SIZE);
    var boot := BootValid(record.bootId);
    ok := transaction && boot && 0 < record.deadline < U64 && |record.previous| <= MAX_BACKUP &&
      (record.previousExists || |record.previous| == 0);
  }

  /** The fields in front of the deadline. */
  method FillFront(b: array<byte>, record: RecoveryRecord)
    requires ValidRecord(record) && b.Length >= 78
    modifies b
    ensures b[..78] == Magic() + [PhaseCode(record.phase)] + [if record.previousExists then 1 else 0] +
      record.transaction + record.bootId
  {
    forall i | 0 <= i < 8 { b[i] := Magic()[i]; }
    b[8], b[9] := PhaseCode(record.phase), if record.previousExists then 1 else 0;
    forall i | 0 <= i < 32 { b[10 + i] := record.transaction[i]; }
    forall i | 0 <= i < 36 { b[42 + i] := record.bootId[i]; }
  }

  /** The deadline and the length of the backup. */
  method FillNumbers(b: array<byte>, deadline: nat, size: nat)
    requires b.Length >= 90
    modifies b
    ensures b[..90] == old(b[..78]) + BigEndian(deadline, 8) + BigEndian(size, 4)
  {
    Put(b, 78, deadline, 8);
    assert b[..86] == old(b[..78]) + BigEndian(deadline, 8);
    ghost var front := b[..86];
    Put(b, 86, size, 4);
    assert b[..90] == front + BigEndian(size, 4);
  }

  /** Lays the record out in one buffer, field by field, and appends the checksum. */
  method Serialize(record: RecoveryRecord, digest: Bytes -> Digest) returns (b: array<byte>)
    requires ValidRecord(record)
    ensures fresh(b) && b[..] == Encode(record, digest)
  {
    var n := HEADER + |record.previous|;
    b := new byte[n + DIGEST_SIZE];
    FillFront(b, record);
    FillNumbers(b, record.deadline, |record.previous|);
    ghost var front := b[..90];
    forall i | 0 <= i < |record.previous| { b[90 + i] := record.previous[i]; }
    assert b[..n] == front + record.previous == Body(record);
    var checksum := digest(b[..n]);
    ghost var body := b[..n];
    forall i | 0 <= i < DIGEST_SIZE { b[n + i] := checksum[i]; }
    assert b[..] == body + checksum;
  }

  /** The checks and field reads of load, on a complete buffer. */
  method Parse(b: array<byte>, digest: Bytes -> Digest) returns (r: Option<RecoveryRecord>)
    requires MIN_FILE <= b.Length <= MAX_FILE
    ensures r == Decode(b[..], digest)
  {
    var n := b.Length - DIGEST_SIZE;
    var size := Get(b, 86, 4);
    assert b[..][..8] == b[..8] && b[..][86..90] == b[86..90] && b[..][..n] == b[..n] && b[..][n..] == b[n..];
    if b[..8] != Magic() || b[9] > 1 || size != b.Length - MIN_FILE { return None; }
    if digest(b[..n]) != b[n..] { return None; }
    var deadline := Get(b, 78, 8);
    var phase := PhaseOf(b[8]);
    if phase.None? { return None; }
    assert b[..][78..86] == b[78..86] && b[..][10..42] == b[10..42] && b[..][42..78] == b[42..78] && b[..][90..n] == b[90..n];
    var loaded := RecoveryRecord(phase.value, b[9] != 0, b[10..42], b[42..78], deadline, b[90..n]);
    assert loaded == Fields(b[..], phase.value);
    var ok := Valid(loaded);
    if !ok { return None; }
    r := Some(loaded);
  }

  /** The steps that put a new record under the journal's name. */
  predicate Rewrites(s: Step) {
    s.Begin? || s.MarkCommitted? || s.MarkRestored?
  }

  /** Resolving a valid record leaves a valid record, whatever the phase. */
  lemma ResolvedIsValid(r: RecoveryRecord, p: Phase)
    requires ValidRecord(r)
    ensures ValidRecord(r.Resolve(p))
  {}

  ghost predicate OverduePending(w: World) {
    IsPending(w.journal.visible) && Due(w, w.journal.visible.value)
  }

  /** Steps towards undoing record: the file, then possibly the record, and nothing else. */
  ghost predicate Undoing(w: World, w': World, record: RecoveryRecord) {
    && w.restored <= w'.restored && w.installed <= w'.installed
    && w' == w.(file := w'.file, journal := w'.journal, installed := w'.installed, restored := w'.restored)
    && (w'.journal.visible == w.journal.visible || w'.journal.visible == Some(record.Resolve(Restored)))
  }

  /** Either nothing happened, or the visible pending record is being undone. */
  ghost predicate Settling(w: World, w': World) {
    w' == w || (IsPending(w.journal.visible) && Undoing(w, w', w.journal.visible.value))
  }

  /** The transaction of record is durably restored: its record, the original file, no secrets kept. */
  ghost predicate Undone(w: World, record: RecoveryRecord) {
    && w.journal == Entry(Some(record.Resolve(Restored)), {Some(record.Resolve(Restored))})
    && w.file == Entry(record.Backup(), {record.Backup()})
    && record.transaction in w.restored && record.transaction in w.txs
    && w.txs[record.transaction].original == record.Backup()
  }

  /** The file is back: recording it is allowed, and writes the resolved record. */
  lemma MayMarkRestored(w: World, w1: World, a: nat, record: RecoveryRecord)
    requires w.lock == Some(a) && w.journal.visible == Some(record) && record.phase == Pending && MayUndo(w, a, record)
    requires Reachable(w) && OnlyFile(w, w1) && w1.file == Entry(record.Backup(), {record.Backup()})
    ensures Enabled(w1, MarkRestored(a)) && ValidRecord(record.Resolve(Restored))
    ensures Apply(w1, MarkRestored(a)).journal == w1.journal.Rename(Some(record.Resolve(Restored)))
  {
    ReachableInv(w);
    assert Recorded(w, w.journal.visible);
    ResolvedIsValid(record, Restored);
  }

  lemma RestoredUndoes(w: World, w1: World, w2: World, a: nat, record: RecoveryRecord)
    requires w.lock == Some(a) && w.journal.visible == Some(record) && record.phase == Pending
    requires Reachable(w) && OnlyFile(w, w1) && w1.file == Entry(record.Backup(), {record.Backup()})
    requires Completed(w1, w2, MarkRestored(a), SyncJournal(a)) || Abandoned(w1, w2, MarkRestored(a))
    ensures Undoing(w, w2, record)
    ensures Completed(w1, w2, MarkRestored(a), SyncJournal(a)) ==> Undone(w2, record)
  {
    ReachableInv(w);
    assert Recorded(w, w.journal.visible) && Agrees(w, w.journal.visible, w.file.visible);
    hide Inv, Reachable, ValidRecord, IsBoot;
    assert w.armed + {} == w.armed && w.settled + {} == w.settled;
  }

  class WifiJournal {
    const machine: Machine
    const actor: nat

    ghost predicate Held()
      reads this, machine
    {
      machine.Valid() && machine.world.lock == Some(actor)
    }

    constructor (machine: Machine, actor: nat)
      ensures this.machine == machine && this.actor == actor
    {
      this.machine, this.actor := machine, actor;
    }

    /** load: what is on disk is always accepted, so only a failing system call can refuse it. */
    method Load() returns (ok: bool, record: Option<RecoveryRecord>)
      requires Held()
      ensures ok ==> record == machine.world.journal.visible
      ensures ok && record.Some? ==> ValidRecord(record.value)
      ensures machine.healthy ==> ok
    {
      record := None;
      var content;
      ok, content := machine.OpenJournal();
      if !ok || content.None? { return; }
      if |content.value| < MIN_FILE || |content.value| > MAX_FILE { return false, None; }
      var bytes;
      ok, bytes := machine.ReadFully(content.value);
      if !ok { return; }
      SavedThenLoaded(machine.world.journal.visible.value, machine.digest);
      record := Parse(bytes, machine.digest);
      ok := record.Some?;
    }

    /** save: temporary file, its fsync, the rename, the directory fsync - in this order. */
    method Save(record: RecoveryRecord, s: Step) returns (ok: bool)
      requires Held() && Rewrites(s)
      requires ValidRecord(record) ==> Enabled(machine.world, s)
      requires ValidRecord(record) ==> Apply(machine.world, s).journal == machine.world.journal.Rename(Some(record))
      modifies machine`world
      ensures Held()
      ensures ok ==> Completed(old(machine.world), machine.world, s, SyncJournal(actor))
      ensures !ok ==> Abandoned(old(machine.world), machine.world, s)
      ensures machine.healthy && ValidRecord(record) ==> ok
    {
      hide Reachable, StrictReader, IsBoot, IsTransaction;
      ok := Valid(record);
      if !ok { return; }
      var bytes := Serialize(record, machine.digest);
      var temp := new TempFile();
      ok := machine.WriteFully(temp, bytes[..]);
      if ok { ok := machine.Flush(temp); }
      if ok { ok := machine.RenameJournal(temp, record, s); }
      if !ok { return; }
      ok := machine.Effect(SyncJournal(actor));
    }

    /** begin: refused while any transaction is pending. */
    method Begin(record: RecoveryRecord, candidate: Bytes) returns (ok: bool)
      requires Held()
      requires Owns(machine.world, actor, record.transaction) && record.transaction !in machine.world.txs
      requires record.bootId == machine.world.bootId && record.Backup() == machine.world.file.visible
      requires machine.world.accepts(candidate) && Accepted(machine.world, record.Backup())
      modifies machine`world
      ensures Held()
      ensures ok ==> Completed(old(machine.world), machine.world, Step.Begin(actor, record, candidate), SyncJournal(actor))
      ensures !ok ==> Abandoned(old(machine.world), machine.world, Step.Begin(actor, record, candidate))
      ensures machine.healthy && ValidRecord(record) && record.phase == Pending && !IsPending(old(machine.world).journal.visible) ==> ok
    {
      hide Reachable, StrictReader, ValidRecord;
      var previous;
      ok, previous := Load();
      if !ok { return; }
      if IsPending(previous) { return false; }
      if record.phase != Pending { return false; }
      ok := Save(record, Step.Begin(actor, record, candidate));
    }

    /** commit: only the pending record of this transaction, in this boot, before its deadline. */
    method Commit(transaction: Bytes, boot: Bytes, now: nat) returns (ok: bool)
      requires Held() && machine.world.bootId == boot && machine.world.reading == Some(now) && machine.world.live
      requires machine.world.PendingOf(transaction) ==>
        Owns(machine.world, actor, transaction) && transaction in machine.world.installed * machine.world.txs.Keys
      requires machine.world.PendingOf(transaction) ==>
        machine.world.file.visible == Some(machine.world.txs[transaction].candidate)
      modifies machine`world
      ensures Held()
      ensures ok ==> Completed(old(machine.world), machine.world, MarkCommitted(actor), SyncJournal(actor))
      ensures !ok ==> Abandoned(old(machine.world), machine.world, MarkCommitted(actor))
      ensures !old(machine.world).PendingOf(transaction) ==> !ok && machine.world == old(machine.world)
      ensures machine.healthy && old(machine.world).PendingOf(transaction) ==>
        ok || old(machine.world).journal.visible.value.bootId != boot || now >= old(machine.world).journal.visible.value.deadline
    {
      var record;
      ok, record := Load();
      if !ok { return; }
      if !IsPending(record) || record.value.transaction != transaction ||
         record.value.bootId != boot || now >= record.value.deadline { return false; }
      ok := Save(record.value.Resolve(Committed), MarkCommitted(actor));
    }

    /** restore_pending: the file first, its outcome recorded only once it is durable. */
    method RestorePending(record: RecoveryRecord, restore: ManagedRestore) returns (outcome: RecoveryOutcome)
      requires Held() && restore.machine == machine && restore.actor == actor
      requires machine.world.journal.visible == Some(record) && record.phase == Pending
      requires MayUndo(machine.world, actor, record)
      modifies machine`world, restore.platform`granted
      ensures Held() && Undoing(old(machine.world), machine.world, record)
      ensures outcome == RestoredNow || outcome == Failed
      ensures outcome == RestoredNow ==> restore.platform.granted == old(restore.platform.granted) + [NetworkRestored]
      ensures outcome == RestoredNow ==> Undone(machine.world, record)
      ensures machine.healthy && restore.platform.willing ==> outcome == RestoredNow
    {
      ghost var w := machine.world;
      var restored := restore.Run(record);
      if !restored { return Failed; }
      ghost var w1 := machine.world;
      MayMarkRestored(w, w1, actor, record);
      var ok := Save(record.Resolve(Restored), MarkRestored(actor));
      RestoredUndoes(w, w1, machine.world, actor, record);
      outcome := if ok then RestoredNow else Failed;
    }

    /** recover_due */
    method RecoverDue(boot: Bytes, now: nat, restore: ManagedRestore) returns (outcome: RecoveryOutcome)
      requires Held() && restore.machine == machine && restore.actor == actor
      requires boot == machine.world.bootId && now == machine.world.clock
      modifies machine`world, restore.platform`granted
      ensures Held() && Settling(old(machine.world), machine.world)
      ensures outcome == Nothing ==> !IsPending(machine.world.journal.visible)
      ensures outcome == Waiting ==> IsPending(machine.world.journal.visible)
      ensures outcome == Waiting ==> !Due(machine.world, machine.world.journal.visible.value)
      ensures outcome == Nothing || outcome == Waiting ==> machine.world == old(machine.world)
      ensures !OverduePending(old(machine.world)) ==>
        machine.world == old(machine.world) && restore.platform.granted == old(restore.platform.granted)
      ensures outcome == RestoredNow ==> OverduePending(old(machine.world))
      ensures outcome == RestoredNow ==> restore.platform.granted == old(restore.platform.granted) + [NetworkRestored]
      ensures outcome == RestoredNow ==> Undone(machine.world, old(machine.world).journal.visible.value)
      ensures machine.healthy && restore.platform.willing && OverduePending(old(machine.world)) ==> outcome == RestoredNow
    {
      ReachableInv(machine.world);
      var valid := BootValid(boot);
      if !valid { return Failed; }
      var ok, record := Load();
      if !ok { return Failed; }
      if !IsPending(record) { return Nothing; }
      if record.value.bootId == boot && now < record.value.deadline { return Waiting; }
      outcome := RestorePending(record.value, restore);
    }

    /** cancel */
    method Cancel(transaction: Bytes, boot: Bytes, restore: ManagedRestore) returns (outcome: RecoveryOutcome)
      requires Held() && restore.machine == machine && restore.actor == actor
      requires boot == machine.world.bootId && Owns(machine.world, actor, transaction)
      modifies machine`world, restore.platform`granted
      ensures Held() && Settling(old(machine.world), machine.world)
      ensures outcome != Waiting
      ensures outcome == Nothing ==> machine.world == old(machine.world) && transaction in VisibleIn(machine.world, Restored)
      ensures !old(machine.world).PendingOf(transaction) ==> machine.world == old(machine.world) && outcome != RestoredNow
      ensures outcome == RestoredNow ==> restore.platform.granted == old(restore.platform.granted) + [NetworkRestored]
      ensures outcome == RestoredNow ==> Undone(machine.world, old(machine.world).journal.visible.value)
      ensures machine.healthy && transaction in VisibleIn(old(machine.world), Restored) ==>
        outcome == Nothing || old(machine.world).journal.visible.value.bootId != boot
      ensures machine.healthy && restore.platform.willing && old(machine.world).PendingOf(transaction) ==>
        outcome == RestoredNow || old(machine.world).journal.visible.value.bootId != boot
    {
      assert machine.world.journal.visible.Some? ==> ValidRecord(machine.world.journal.visible.value) by {
        ReachableInv(machine.world);
        assert Recorded(machine.world, machine.world.journal.visible);
      }
      assert IsBoot(boot) by { ReachableInv(machine.world); }
      hide Inv, Reachable, StrictReader, Undone, IsBoot, IsHex, Undoing;
      var hex := HexString(transaction, 32);
      var valid := BootValid(boot);
      if !hex || !valid { return Failed; }
      var ok, record := Load();
      if !ok { return Failed; }
      if record.None? || record.value.transaction != transaction || record.value.bootId != boot ||
         record.value.phase == Committed { return Failed; }
      if record.value.phase == Restored { return Nothing; }
      outcome := RestorePending(record.value, restore);
    }
  }
}
