/** What holds over every run of the transaction protocol, crashes and power losses included. */
module Runs {
  import opened Octets
  import opened Records
  import opened Protocol

  ghost predicate Legal(w: World, steps: seq<Step>)
    decreases |steps|
  {
    steps == [] || (Enabled(w, steps[0]) && Legal(Apply(w, steps[0]), steps[1..]))
  }

  ghost function Exec(w: World, steps: seq<Step>): (r: World)
    requires Legal(w, steps)
    decreases |steps|
  {
    if steps == [] then w else Exec(Apply(w, steps[0]), steps[1..])
  }

  /** Some run of a freshly started machine ends in w. */
  ghost predicate Reachable(w: World) {
    exists w0, steps :: Init(w0) && Legal(w0, steps) && Exec(w0, steps) == w
  }

  lemma {:induction false} ExecInv(w: World, steps: seq<Step>)
    requires Inv(w) && Legal(w, steps)
    ensures Inv(Exec(w, steps))
    decreases |steps|
  {
    if steps != [] {
      StepInv(w, steps[0]);
      ExecInv(Apply(w, steps[0]), steps[1..]);
    }
  }

  lemma {:induction false} ExecConcat(w: World, a: seq<Step>, b: seq<Step>)
    requires Legal(w, a) && Legal(Exec(w, a), b)
    ensures Legal(w, a + b) && Exec(w, a + b) == Exec(Exec(w, a), b)
    decreases |a|
  {
    if a == [] {
      assert a + b == b;
    } else {
      ExecConcat(Apply(w, a[0]), a[1..], b);
      assert (a + b)[0] == a[0] && (a + b)[1..] == a[1..] + b;
    }
  }

  /** A run followed by one more step. */
  lemma ExecThen(w: World, steps: seq<Step>, s: Step)
    requires Legal(w, steps) && Enabled(Exec(w, steps), s)
    ensures Legal(w, steps + [s]) && Exec(w, steps + [s]) == Apply(Exec(w, steps), s)
  {
    var w' := Exec(w, steps);
    assert [s][0] == s && [s][1..] == [];
    assert Legal(Apply(w', s), []) && Exec(Apply(w', s), []) == Apply(w', s);
    assert Legal(w', [s]) && Exec(w', [s]) == Apply(w', s);
    ExecConcat(w, steps, [s]);
  }

  lemma ReachableInv(w: World)
    requires Reachable(w)
    ensures Inv(w)
  {
    var w0, steps :| Init(w0) && Legal(w0, steps) && Exec(w0, steps) == w;
    InitInv(w0);
    ExecInv(w0, steps);
  }

  lemma InitReachable(w: World)
    requires Init(w)
    ensures Reachable(w)
  {
    assert Legal(w, []) && Exec(w, []) == w;
  }

  lemma ReachableStep(w: World, s: Step)
    requires Reachable(w) && Enabled(w, s)
    ensures Reachable(Apply(w, s))
  {
    var w0, steps :| Init(w0) && Legal(w0, steps) && Exec(w0, steps) == w;
    ExecThen(w0, steps, s);
  }

  /**
    * Atomicity across crashes. After any run, whichever journal j and file f the disk
    * happens to keep, they tell one story about the recorded transaction.
    */
  lemma CrashSafety(w: World, j: Option<RecoveryRecord>, f: Option<Bytes>)
    requires Reachable(w) && j in w.journal.durable && f in w.file.durable
    ensures j.None? ==> f == w.initial
    ensures j.Some? ==> j.value.transaction in w.txs && ValidRecord(j.value)
    ensures j.Some? ==> var tx := w.txs[j.value.transaction];
      || f == tx.original
      || (j.value.phase == Pending && j.value.Backup() == tx.original && f == Some(tx.candidate))
      || (j.value.phase == Committed && f == Some(tx.candidate))
    ensures j.Some? && j.value.phase == Pending ==> j.value.Backup() == w.txs[j.value.transaction].original
    ensures j.Some? && j.value.phase == Committed ==> f == Some(w.txs[j.value.transaction].candidate)
    ensures j.Some? && j.value.phase == Restored ==> f == w.txs[j.value.transaction].original
    ensures j.Some? && f.Some? ==> w.accepts(f.value)
  {
    ReachableInv(w);
    assert Agrees(w, j, f) && Recorded(w, j) && (j.Some? ==> Accepted(w, f));
  }

  ghost predicate NoPowerLoss(steps: seq<Step>) {
    forall i :: 0 <= i < |steps| ==> !steps[i].PowerLoss?
  }

  /** History only grows, and a transaction's description never changes. */
  ghost predicate Grown(w: World, w': World) {
    && w.txs.Keys <= w'.txs.Keys && (forall t :: t in w.txs ==> w'.txs[t] == w.txs[t])
    && w.drawn.Keys <= w'.drawn.Keys && (forall t :: t in w.drawn ==> w'.drawn[t] == w.drawn[t])
    && w.armed <= w'.armed && w.committed <= w'.committed && w.settled <= w'.settled && w.restored <= w'.restored
    && w'.initial == w.initial && w'.accepts == w.accepts
  }

  lemma {:induction false} ExecGrown(w: World, steps: seq<Step>)
    requires Legal(w, steps)
    ensures Grown(w, Exec(w, steps))
    decreases |steps|
  {
    if steps != [] {
      assert Grown(w, Apply(w, steps[0]));
      ExecGrown(Apply(w, steps[0]), steps[1..]);
    }
  }

  /** A durable commit is final: no continuation restores the transaction or shows it pending. */
  lemma SettledIsFinal(w: World, steps: seq<Step>, t: Bytes)
    requires Inv(w) && Legal(w, steps) && t in w.settled
    ensures t !in Exec(w, steps).restored
    ensures forall j :: j in Exec(w, steps).journal.durable ==>
      (j.Some? && j.value.transaction == t ==> j.value.phase == Committed)
  {
    ExecInv(w, steps);
    ExecGrown(w, steps);
  }

  lemma {:induction false} NeverCommittedAfter(w: World, steps: seq<Step>, t: Bytes)
    requires Inv(w) && Legal(w, steps) && t in w.restored
    ensures t in Exec(w, steps).committed ==> t in w.committed
    decreases |steps|
  {
    if steps != [] {
      StepInv(w, steps[0]);
      NeverCommittedAfter(Apply(w, steps[0]), steps[1..], t);
    }
  }

  /** A restoration, once begun to be recorded, excludes any later commit of that transaction. */
  lemma RestoredIsFinal(w: World, steps: seq<Step>, t: Bytes)
    requires Inv(w) && Legal(w, steps) && t in w.restored
    ensures t !in Exec(w, steps).settled
    ensures t in Exec(w, steps).committed ==> t in w.committed
  {
    ExecInv(w, steps);
    ExecGrown(w, steps);
    NeverCommittedAfter(w, steps, t);
  }

  ghost predicate PendingOnDisk(w: World, t: Bytes) {
    exists j :: j in w.journal.durable && IsPending(j) && j.value.transaction == t
  }

  lemma {:induction false} GoneForGood(w: World, steps: seq<Step>, t: Bytes)
    requires Inv(w) && Legal(w, steps) && t in w.txs && t !in w.restored && !PendingOnDisk(w, t)
    ensures t !in Exec(w, steps).restored
    decreases |steps|
  {
    if steps != [] {
      var w' := Apply(w, steps[0]);
      StepInv(w, steps[0]);
      assert !PendingOnDisk(w', t) by {
        forall j | j in w'.journal.durable && IsPending(j) ensures j.value.transaction != t {
          if j in w.journal.durable {}
        }
      }
      assert t !in w'.restored by {
        assert w.journal.visible in w.journal.durable;
      }
      GoneForGood(w', steps[1..], t);
    }
  }

  /** The supervisor's work after a power loss that left the pending record r. */
  ghost function UndoAfterLoss(r: RecoveryRecord, f: Option<Bytes>, boot: Bytes): seq<Step> {
    [PowerLoss(Some(r), f, boot, 0), Acquire(0), Undo(0), SyncFile(0), MarkRestored(0)]
  }

  ghost predicate FiveSteps(w: World, s: seq<Step>)
    requires |s| == 5
  {
    Enabled(w, s[0]) &&
    (var w1 := Apply(w, s[0]);
     Enabled(w1, s[1]) &&
     (var w2 := Apply(w1, s[1]);
      Enabled(w2, s[2]) &&
      (var w3 := Apply(w2, s[2]);
       Enabled(w3, s[3]) && Enabled(Apply(w3, s[3]), s[4]))))
  }

  ghost function AfterFive(w: World, s: seq<Step>): World
    requires |s| == 5 && FiveSteps(w, s)
  {
    Apply(Apply(Apply(Apply(Apply(w, s[0]), s[1]), s[2]), s[3]), s[4])
  }

  /** Whoever takes the lock after the loss finds the record due and may put the backup back. */
  lemma UndoWhenDue(w: World, r: RecoveryRecord)
    requires w.journal == Entry(Some(r), {Some(r)}) && r.phase == Pending && r.bootId != w.bootId && w.lock.None?
    ensures Enabled(w, Acquire(0))
    ensures var w2 := Apply(w, Acquire(0));
      Enabled(w2, Undo(0)) && Enabled(Apply(w2, Undo(0)), SyncFile(0)) &&
      var w4 := Apply(Apply(w2, Undo(0)), SyncFile(0));
      Enabled(w4, MarkRestored(0)) && r.transaction in Apply(w4, MarkRestored(0)).restored
  {
    var w2 := Apply(w, Acquire(0));
    var w3 := Apply(w2, Undo(0));
    assert w3.journal == w.journal && w3.bootId == w.bootId && w3.lock == Some(0) && w3.file.visible == r.Backup();
    var w4 := Apply(w3, SyncFile(0));
    assert w4.journal == w.journal && w4.bootId == w.bootId && w4.lock == Some(0) && w4.file.durable == {r.Backup()};
  }

  lemma UndoAfterLossEnabled(w: World, r: RecoveryRecord, boot: Bytes)
    requires Inv(w) && IsBoot(boot) && boot !in w.boots
    requires Some(r) in w.journal.durable && r.phase == Pending
    ensures FiveSteps(w, UndoAfterLoss(r, w.file.visible, boot))
    ensures r.transaction in AfterFive(w, UndoAfterLoss(r, w.file.visible, boot)).restored
  {
    assert Recorded(w, Some(r));
    assert r.bootId in w.boots;
    var w1 := Apply(w, PowerLoss(Some(r), w.file.visible, boot, 0));
    UndoWhenDue(w1, r);
    hide Inv, Enabled, Apply, IsBoot, Recorded;
  }

  lemma ExecFive(w: World, s: seq<Step>)
    requires |s| == 5 && FiveSteps(w, s)
    ensures Legal(w, s) && Exec(w, s) == AfterFive(w, s)
  {
    assert Legal(w, []) && Exec(w, []) == w;
    ExecThen(w, [], s[0]);
    assert [] + [s[0]] == s[..1];
    ExecThen(w, s[..1], s[1]);
    assert s[..1] + [s[1]] == s[..2];
    ExecThen(w, s[..2], s[2]);
    assert s[..2] + [s[2]] == s[..3];
    ExecThen(w, s[..3], s[3]);
    assert s[..3] + [s[3]] == s[..4];
    ExecThen(w, s[..4], s[4]);
    assert s[..4] + [s[4]] == s;
  }

  /**
    * Exactly when a transaction can still be undone: when some power loss can leave its
    * pending record. A Committed record that was renamed in but not yet synced does not
    * prevent it, so "never both Committed and Restored" holds for durable commits only.
    */
  lemma UndoableIffPendingOnDisk(w: World, t: Bytes, boot: Bytes)
    requires Inv(w) && t in w.txs && t !in w.restored
    requires IsBoot(boot) && boot !in w.boots
    ensures (exists steps :: Legal(w, steps) && t in Exec(w, steps).restored) <==> PendingOnDisk(w, t)
  {
    if PendingOnDisk(w, t) {
      var j :| j in w.journal.durable && IsPending(j) && j.value.transaction == t;
      UndoAfterLossEnabled(w, j.value, boot);
      ExecFive(w, UndoAfterLoss(j.value, w.file.visible, boot));
    }
    if !PendingOnDisk(w, t) {
      forall steps | Legal(w, steps) ensures t !in Exec(w, steps).restored { GoneForGood(w, steps, t); }
    }
  }

  /** Every commit can be undone until its directory is synced, and no longer afterwards. */
  lemma CommitWindow(w: World, a: nat, boot: Bytes)
    requires Inv(w) && Enabled(w, MarkCommitted(a))
    requires IsBoot(boot) && boot !in w.boots
    ensures var t := w.journal.visible.value.transaction;
      var renamed := Apply(w, MarkCommitted(a));
      && (exists steps :: Legal(renamed, steps) && t in Exec(renamed, steps).restored)
      && Enabled(renamed, SyncJournal(a))
      && var synced := Apply(renamed, SyncJournal(a));
      && t in synced.settled
      && (forall steps :: Legal(synced, steps) ==> t !in Exec(synced, steps).restored)
  {
    var t := w.journal.visible.value.transaction;
    var renamed := Apply(w, MarkCommitted(a));
    StepInv(w, MarkCommitted(a));
    assert w.journal.visible in renamed.journal.durable;
    UndoableIffPendingOnDisk(renamed, t, boot);
    var synced := Apply(renamed, SyncJournal(a));
    StepInv(renamed, SyncJournal(a));
    forall steps | Legal(synced, steps) ensures t !in Exec(synced, steps).restored { SettledIsFinal(synced, steps, t); }
  }

  /** A boot identity made of one digit. */
  function BootOf(d: byte): (b: Bytes)
    requires Unhex(d) >= 0
    ensures IsBoot(b) && b[0] == d
  {
    seq(36, i => if IsDash(i) then 45 else d)
  }

  /** A machine freshly started without a managed file. */
  function BlankWorld(accepts: Bytes -> bool): (w: World)
    ensures Init(w) && w.accepts == accepts
  {
    var boot := BootOf(48);
    World(Entry(None, {None}), Entry(None, {None}), boot, 0, None, false, None,
      None, {boot}, map[], map[], {}, {}, {}, {}, {}, accepts)
  }

  /** The first transaction of the blank machine. */
  function FirstRecord(): (r: RecoveryRecord)
    ensures ValidRecord(r) && r.phase == Pending && r.bootId == BootOf(48) && r.Backup() == None && r.deadline == 90000
  {
    RecoveryRecord(Pending, false, Copies<byte>(48, 32), BootOf(48), 90000, [])
  }

  /** That transaction has been drawn and journalled by actor 0, who holds the lock in the first boot. */
  ghost predicate First(w: World, accepts: Bytes -> bool, candidate: Bytes) {
    var t := FirstRecord().transaction;
    && w.accepts == accepts && w.lock == Some(0) && w.clock == 0 && w.bootId == FirstRecord().bootId && w.boots == {w.bootId}
    && w.journal.visible == Some(FirstRecord()) && Owns(w, 0, t)
    && t in w.txs && w.txs[t].original == None && w.txs[t].candidate == candidate
  }

  /** Journalling that transaction on the blank machine. */
  lemma FirstJournalled(accepts: Bytes -> bool, candidate: Bytes) returns (w: World)
    requires accepts(candidate)
    ensures Reachable(w) && First(w, accepts, candidate)
    ensures FirstRecord().transaction in w.armed && w.file == Entry(None, {None})
  {
    var r := FirstRecord();
    w := BlankWorld(accepts);
    InitReachable(w);
    hide Reachable, FirstRecord, ValidRecord, IsBoot;
    ReachableStep(w, Acquire(0));
    w := Apply(w, Acquire(0));
    ReachableStep(w, Draw(0, r.transaction));
    w := Apply(w, Draw(0, r.transaction));
    ReachableStep(w, Begin(0, r, candidate));
    w := Apply(w, Begin(0, r, candidate));
    ReachableStep(w, SyncJournal(0));
    w := Apply(w, SyncJournal(0));
  }

  /** Installing its candidate. */
  lemma FirstInstalled(accepts: Bytes -> bool, candidate: Bytes) returns (w: World)
    requires accepts(candidate)
    ensures Reachable(w) && First(w, accepts, candidate)
    ensures FirstRecord().transaction in w.installed && w.file.visible == Some(candidate)
  {
    w := FirstJournalled(accepts, candidate);
    hide Reachable, FirstRecord;
    ReachableStep(w, Install(0));
    w := Apply(w, Install(0));
    ReachableStep(w, SyncFile(0));
    w := Apply(w, SyncFile(0));
  }

  /** Carrying that transaction up to its committing rename. */
  lemma FirstChecked(accepts: Bytes -> bool, candidate: Bytes) returns (w: World)
    requires accepts(candidate)
    ensures Reachable(w) && First(w, accepts, candidate)
    ensures w.file.visible == Some(candidate) && FirstRecord().transaction in w.installed
    ensures Enabled(w, MarkCommitted(0)) && FirstRecord().transaction in Apply(w, MarkCommitted(0)).committed
  {
    w := FirstInstalled(accepts, candidate);
    hide Reachable, FirstRecord;
    ReachableStep(w, LiveChecks(0));
    w := Apply(w, LiveChecks(0));
    ReachableStep(w, ReadClock(0));
    w := Apply(w, ReadClock(0));
  }

  /** The committing rename of t is allowed and happens, and steps then lose it: t ends restored. */
  ghost predicate Lost(w: World, t: Bytes, steps: seq<Step>) {
    && Enabled(w, MarkCommitted(0)) && w.PendingOf(t)
    && var renamed := Apply(w, MarkCommitted(0));
    && t in renamed.committed && Legal(renamed, steps) && t in Exec(renamed, steps).restored
  }

  /**
    * The commit window is real, whatever the reader accepts: one transaction from the blank machine up to its
    * committed record, and a continuation in which a power loss brings the pending record back and it is undone.
    */
  lemma CommitLost(accepts: Bytes -> bool, candidate: Bytes) returns (w: World, steps: seq<Step>)
    requires accepts(candidate)
    ensures Reachable(w) && First(w, accepts, candidate) && Lost(w, FirstRecord().transaction, steps)
    ensures w.file.visible == Some(candidate) && FirstRecord().transaction in w.installed
  {
    var t := FirstRecord().transaction;
    w := FirstChecked(accepts, candidate);
    var other := BootOf(49);
    assert other !in w.boots by { assert other[0] == 49 && FirstRecord().bootId[0] == 48; }
    ReachableInv(w);
    hide Reachable, Inv, Enabled, Apply, FirstRecord, BootOf, IsBoot, Legal, Exec;
    CommitWindow(w, 0, other);
    steps :| Legal(Apply(w, MarkCommitted(0)), steps) && t in Exec(Apply(w, MarkCommitted(0)), steps).restored;
  }

  /** The visible record belongs to a transaction that was not yet recorded in w0. */
  ghost predicate Newer(w0: World, w: World) {
    w0.txs.Keys <= w.txs.Keys && w.journal.visible.Some? && w.journal.visible.value.transaction !in w0.txs
  }

  lemma {:induction false} NewerStays(w0: World, w: World, steps: seq<Step>)
    requires Newer(w0, w) && Legal(w, steps) && NoPowerLoss(steps)
    ensures Newer(w0, Exec(w, steps))
    decreases |steps|
  {
    if steps != [] {
      assert !steps[0].PowerLoss?;
      assert forall i :: 0 <= i < |steps| - 1 ==> steps[1..][i] == steps[i + 1];
      NewerStays(w0, Apply(w, steps[0]), steps[1..]);
    }
  }

  /**
    * Once resolved, the visible record outlives every run without a power loss that journals nothing new, and
    * gives way only to the record of a transaction begun in the run.
    */
  lemma {:induction false} ResolvedOnlyReplaced(w: World, steps: seq<Step>)
    requires Legal(w, steps) && NoPowerLoss(steps) && !IsPending(w.journal.visible)
    requires Exec(w, steps).journal.visible != w.journal.visible
    ensures exists i :: 0 <= i < |steps| && steps[i].Begin? && steps[i].record.transaction !in w.txs
    ensures Newer(w, Exec(w, steps))
    decreases |steps|
  {
    var w' := Apply(w, steps[0]);
    assert !steps[0].PowerLoss?;
    assert forall i :: 0 <= i < |steps| - 1 ==> steps[1..][i] == steps[i + 1];
    if steps[0].Begin? {
      NewerStays(w, w', steps[1..]);
    } else {
      assert w'.journal.visible == w.journal.visible && w'.txs == w.txs;
      ResolvedOnlyReplaced(w', steps[1..]);
      var i :| 0 <= i < |steps| - 1 && steps[1..][i].Begin? && steps[1..][i].record.transaction !in w.txs;
      assert steps[i + 1].Begin?;
    }
  }

  predicate StepOf(a: nat, s: Step) {
    (s.Acquire? || s.Release? || s.Draw? || s.ReadClock? || s.LiveChecks? || s.Begin? || s.SyncJournal? ||
     s.Install? || s.SyncFile? || s.Undo? || s.MarkCommitted? || s.MarkRestored?) && s.actor == a
  }

  /** Nobody but its owner moves a pending transaction before it is due. */
  lemma {:induction false} OnlyOwnerBeforeDue(w: World, steps: seq<Step>, a: nat)
    requires Inv(w) && Legal(w, steps) && NoPowerLoss(steps)
    requires IsPending(w.journal.visible) && Owns(w, a, w.journal.visible.value.transaction)
    requires forall i :: 0 <= i < |steps| ==> !StepOf(a, steps[i])
    requires !Due(Exec(w, steps), w.journal.visible.value)
    ensures Exec(w, steps).journal.visible == w.journal.visible
    ensures Exec(w, steps).file.visible == w.file.visible
    decreases |steps|
  {
    if steps != [] {
      var w' := Apply(w, steps[0]);
      StepInv(w, steps[0]);
      ClockForward(w', steps[1..]);
      assert !Due(w, w.journal.visible.value);
      assert !StepOf(a, steps[0]);
      forall i | 0 <= i < |steps| - 1 ensures !StepOf(a, steps[1..][i]) && !steps[1..][i].PowerLoss? {
        assert steps[1..][i] == steps[i + 1];
      }
      OnlyOwnerBeforeDue(w', steps[1..], a);
    }
  }

  lemma {:induction false} ClockForward(w: World, steps: seq<Step>)
    requires Legal(w, steps) && NoPowerLoss(steps)
    ensures Exec(w, steps).clock >= w.clock && Exec(w, steps).bootId == w.bootId
    decreases |steps|
  {
    if steps != [] {
      assert !steps[0].PowerLoss?;
      forall i | 0 <= i < |steps| - 1 ensures !steps[1..][i].PowerLoss? { assert steps[1..][i] == steps[i + 1]; }
      ClockForward(Apply(w, steps[0]), steps[1..]);
    }
  }
}
