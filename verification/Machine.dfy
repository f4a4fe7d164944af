/**
  * The shared machine: two directories, the lock file, the boot clock, and everything
  * that may go wrong. Each effect on disk is one step of the protocol and demands the
  * step's guard, so code that verifies against it can only take guarded steps.
  */
module Machine {
  import opened Octets
  import opened Profile
  import opened ConfigDraft
  import opened Records
  import opened JournalCodec
  import opened Protocol
  import opened Runs

  /** A private file that is filled, flushed, and then renamed into place. */
  class TempFile {
    var content: Bytes
    var flushed: bool

    constructor ()
      ensures content == [] && !flushed
    {
      content, flushed := [], false;
    }
  }

  /** What every live process keeps knowing, whoever moved: history grows within one boot. */
  ghost predicate Onward(w: World, w': World) {
    Grown(w, w') && w'.bootId == w.bootId && w'.clock >= w.clock
  }

  /** What was once durably committed, or restored, stays so. */
  ghost predicate Kept(w: World, w': World) {
    w.settled <= w'.settled && w.restored <= w'.restored
  }

  lemma OnwardThen(w: World, w1: World, w2: World)
    requires Onward(w, w1) && Onward(w1, w2)
    ensures Onward(w, w2)
  {}

  ghost predicate KeepsInstalled(w: World, w': World, a: nat) {
    forall t :: t in w.installed && Owns(w, a, t) ==> t in w'.installed
  }

  ghost predicate BeganNothing(w: World, w': World, a: nat) {
    forall t :: t in w'.txs && t !in w.txs ==> t in w'.drawn && w'.drawn[t] != a
  }

  /** Nothing but the clock, the readings and the set of drawn identities has moved. */
  ghost predicate Undisturbed(w: World, w': World) {
    && w'.journal == w.journal && w'.file == w.file && w'.lock == w.lock
    && w'.txs == w.txs && w'.armed == w.armed && w'.installed == w.installed
    && w'.committed == w.committed && w'.settled == w.settled && w'.restored == w.restored
  }

  /** An effect and the directory fsync that makes it durable. */
  ghost predicate Completed(w: World, w': World, s: Step, sync: Step) {
    Enabled(w, s) && Enabled(Apply(w, s), sync) && w' == Apply(Apply(w, s), sync)
  }

  /** An effect that was not completed: it happened without its fsync, or not at all. */
  ghost predicate Abandoned(w: World, w': World, s: Step) {
    w' == w || (Enabled(w, s) && w' == Apply(w, s))
  }

  /** Other live actors have moved, any number of times. */
  ghost predicate OthersMoved(w: World, w': World, a: nat) {
    && Onward(w, w') && KeepsInstalled(w, w', a) && BeganNothing(w, w', a)
    && (w.lock == Some(a) ==> Undisturbed(w, w') && w'.live == w.live && w'.reading == w.reading)
    && (w.lock != Some(a) ==> w'.lock != Some(a))
  }

  lemma OneOtherMoved(w: World, s: Step, a: nat)
    requires Inv(w) && Enabled(w, s) && !s.PowerLoss? && !StepOf(a, s)
    ensures OthersMoved(w, Apply(w, s), a)
  {
    hide Loadable, Crashproof, ArmedAlone, UntouchedUnarmed, InstalledDurable, RestoredStale, DecidedOnce, SettledForGood, Truthful;
  }

  lemma OthersMovedTransitive(w: World, w1: World, w2: World, a: nat)
    requires OthersMoved(w, w1, a) && OthersMoved(w1, w2, a)
    ensures OthersMoved(w, w2, a)
  {}

  /** The managed file is guarded by the strict reader of its own format. */
  ghost predicate StrictReader(accepts: Bytes -> bool, g: Layout) {
    forall b :: accepts(b) <==> ReadYaml(g, b).Some?
  }

  class Machine {
    const layout: Layout
    const digest: Bytes -> Digest
    const derive: Derivation
    var world: World
    var healthy: bool  // no system call fails

    ghost predicate Valid()
      reads this
    {
      Reachable(world) && StrictReader(world.accepts, layout)
    }

    /** The machine as the installer leaves it. */
    constructor (layout: Layout, digest: Bytes -> Digest, derive: Derivation, world: World, healthy: bool)
      requires Init(world)
      requires StrictReader(world.accepts, layout)
      ensures Valid()
      ensures this.layout == layout && this.digest == digest && this.world == world && this.healthy == healthy
    {
      this.layout, this.digest, this.derive := layout, digest, derive;
      this.world, this.healthy := world, healthy;
      InitReachable(world);
    }

    /** One step of the protocol. */
    method Take(s: Step)
      requires Valid() && Enabled(world, s)
      modifies this`world
      ensures Valid() && world == Apply(old(world), s)
    {
      ReachableStep(world, s);
      world := Apply(world, s);
    }

    /** A system call: it may fail whenever the machine is not healthy. */
    method Attempt() returns (ok: bool)
      ensures healthy ==> ok
    {
      ok := *;
      if healthy { ok := true; }
    }

    /** Everything other live actors do between two operations of actor a; no power loss. */
    method Interfere(a: nat)
      requires Valid()
      modifies this`world
      ensures Valid() && OthersMoved(old(world), world, a)
    {
      var script: seq<Step> := *;
      for i := 0 to |script|
        invariant Valid() && OthersMoved(old(world), world, a)
      {
        var s := script[i];
        if !s.PowerLoss? && !StepOf(a, s) && Enabled(world, s) {
          ReachableInv(world);
          OneOtherMoved(world, s, a);
          OthersMovedTransitive(old(world), world, Apply(world, s), a);
          Take(s);
        }
      }
    }

    /** Opens the directory and takes its lock file without waiting. */
    method TakeLock(a: nat) returns (ok: bool)
      requires Valid()
      modifies this`world
      ensures Valid()
      ensures ok ==> old(world.lock).None? && world == old(world).(lock := Some(a), live := false, reading := None)
      ensures !ok ==> world == old(world)
      ensures healthy && old(world.lock).None? ==> ok
    {
      ok := Attempt();
      if ok && world.lock.None? {
        Take(Acquire(a));
      } else {
        ok := false;
      }
    }

    method DropLock(a: nat)
      requires Valid() && world.lock == Some(a)
      modifies this`world
      ensures Valid() && world == old(world).(lock := None)
    {
      Take(Release(a));
    }

    /** recovery_clock: time has passed by the time the clock is read. */
    method RecoveryClock(a: nat) returns (ok: bool, boot: Bytes, now: nat)
      requires Valid() && world.lock == Some(a)
      modifies this`world
      ensures Valid() && world.clock >= old(world.clock)
      ensures ok ==> boot == world.bootId && IsBoot(boot) && now == world.clock
      ensures ok ==> world == old(world).(clock := now, reading := Some(now))
      ensures !ok ==> world == old(world).(clock := world.clock)
      ensures healthy ==> ok
    {
      var ms :| 0 <= ms;
      ReachableInv(world);
      Take(Pass(ms));
      ok := Attempt();
      boot, now := [], 0;
      if ok {
        Take(ReadClock(a));
        boot, now := world.bootId, world.clock;
      }
    }

    /** Sixteen random bytes; a collision with an earlier identity counts as a refusal. */
    method RandomIdentity(a: nat) returns (ok: bool, random: Bytes)
      requires Valid()
      modifies this`world
      ensures Valid()
      ensures ok ==> |random| == 16 && HexOf(random) !in old(world.drawn)
      ensures ok ==> world == old(world).(drawn := old(world.drawn)[HexOf(random) := a])
      ensures !ok ==> world == old(world)
    {
      random := *;
      ok := |random| == 16 && HexOf(random) !in world.drawn;
      if ok { Take(Draw(a, HexOf(random))); }
    }

    /** The read loop: chunks of any size until the buffer is full, or a failure. */
    method ReadFully(content: Bytes) returns (ok: bool, buffer: array<byte>)
      ensures fresh(buffer) && buffer.Length == |content|
      ensures ok ==> buffer[..] == content
      ensures healthy ==> ok
    {
      buffer := new byte[|content|];
      var offset := 0;
      while offset < |content|
        invariant offset <= |content|
        invariant forall i :: 0 <= i < offset ==> buffer[i] == content[i]
        decreases |content| - offset
      {
        var n: int := *;
        if n > |content| - offset || (healthy && n <= 0) { n := |content| - offset; }
        if n <= 0 { return false, buffer; }
        forall i | offset <= i < offset + n { buffer[i] := content[i]; }
        offset := offset + n;
      }
      ok := true;
    }

    /** The write loop: stops early when a write makes no progress. */
    method WriteFully(temp: TempFile, bytes: Bytes) returns (ok: bool)
      requires temp.content == []
      modifies temp`content
      ensures ok ==> temp.content == bytes
      ensures healthy ==> ok
    {
      var offset := 0;
      while offset < |bytes|
        invariant offset <= |bytes| && temp.content == bytes[..offset]
        decreases |bytes| - offset
      {
        var n: int := *;
        if n > |bytes| - offset || (healthy && n <= 0) { n := |bytes| - offset; }
        if n <= 0 { break; }
        temp.content := temp.content + bytes[offset..offset + n];
        offset := offset + n;
      }
      ok := offset == |bytes|;
    }

    /** fsync of the file itself. */
    method Flush(temp: TempFile) returns (ok: bool)
      modifies temp`flushed
      ensures ok ==> temp.flushed
      ensures healthy ==> ok
    {
      ok := Attempt();
      temp.flushed := ok;
    }

    /** One effect on a directory entry: it happens as the step says, or not at all. */
    method Effect(s: Step) returns (ok: bool)
      requires Valid() && Enabled(world, s)
      modifies this`world
      ensures Valid()
      ensures ok ==> world == Apply(old(world), s)
      ensures !ok ==> world == old(world)
      ensures healthy ==> ok
    {
      ok := Attempt();
      if ok { Take(s); }
    }

    /** The bytes a loader would find under the journal's name. */
    method OpenJournal() returns (ok: bool, content: Option<Bytes>)
      requires Valid()
      ensures ok ==> (content.None? <==> world.journal.visible.None?)
      ensures ok && content.Some? ==> ValidRecord(world.journal.visible.value)
      ensures ok && content.Some? ==> content.value == Encode(world.journal.visible.value, digest)
      ensures healthy ==> ok
    {
      ReachableInv(world);
      ok := Attempt();
      match world.journal.visible
      case None => content := None;
      case Some(r) => content := Some(Encode(r, digest));
    }

    /** Renames a filled and flushed file over the journal. */
    method RenameJournal(temp: TempFile, record: RecoveryRecord, s: Step) returns (ok: bool)
      requires Valid() && Enabled(world, s) && Apply(world, s).journal == world.journal.Rename(Some(record))
      requires temp.flushed && ValidRecord(record) && temp.content == Encode(record, digest)
      modifies this`world
      ensures Valid()
      ensures ok ==> world == Apply(old(world), s)
      ensures !ok ==> world == old(world)
      ensures healthy ==> ok
    {
      ok := Effect(s);
    }

    method OpenManaged() returns (ok: bool, content: Option<Bytes>)
      requires Valid()
      ensures ok ==> content == world.file.visible
      ensures healthy ==> ok
    {
      ok := Attempt();
      content := world.file.visible;
    }

    /** Renames a filled and flushed file over the managed configuration. */
    method RenameManaged(temp: TempFile, s: Step) returns (ok: bool)
      requires Valid() && Enabled(world, s) && Apply(world, s).file == world.file.Rename(Some(temp.content))
      requires temp.flushed
      modifies this`world
      ensures Valid()
      ensures ok ==> world == Apply(old(world), s)
      ensures !ok ==> world == old(world)
      ensures healthy ==> ok
    {
      ok := Effect(s);
    }
  }
}
