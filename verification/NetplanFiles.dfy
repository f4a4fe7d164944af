/** NetplanFiles: server/src/netplan_files.cpp, for the managed YAML file. */
module NetplanFiles {
  import opened Octets
  import opened ConfigDraft
  import opened Profile
  import opened Records
  import opened Protocol
  import opened Runs
  import opened Machine
  import opened Platform

  /** Only the managed file has changed, and nothing was uninstalled. */
  ghost predicate OnlyFile(w: World, w': World) {
    w' == w.(file := w'.file, installed := w'.installed) && w.installed <= w'.installed
  }

  /** While a transaction is pending, both its backup and the file are acceptable. */
  lemma BackupAccepted(w: World)
    requires Reachable(w) && IsPending(w.journal.visible)
    ensures Accepted(w, w.journal.visible.value.Backup()) && Accepted(w, w.file.visible)
  {
    ReachableInv(w);
    assert Agrees(w, w.journal.visible, w.file.visible);
  }

  class NetplanFiles {
    const machine: Machine
    const actor: nat

    ghost predicate Held()
      reads this, machine
    {
      machine.Valid() && machine.world.lock == Some(actor)
    }

    constructor (machine: Machine, actor: nat)
      ensures this.machine == machine && this.actor == actor
    {
      this.machine, this.actor := machine, actor;
    }

    /** canonical: in either mode, exactly the drafts the printer of that mode writes. */
    method Canonical(bytes: Bytes, supplicant: bool) returns (ok: bool)
      requires machine.Valid()
      ensures !supplicant ==> (ok <==> machine.world.accepts(bytes))
      ensures supplicant ==> (ok <==> exists p :: ValidProfile(p) && Supplicant(machine.layout, p) == bytes)
    {
      if bytes == [] || |bytes| > MAX_DRAFT {
        assert bytes == [] ==> ReadYaml(machine.layout, bytes).None?;
        SupplicantExact(machine.layout, bytes);
        return false;
      }
      var profile;
      if supplicant {
        profile := ReadWifiSupplicantDraft(machine.layout, bytes, machine.derive);
      } else {
        profile := ReadWifiConfigDraft(machine.layout, bytes, machine.derive);
      }
      ok := profile.Some?;
    }

    /** backup */
    method Backup() returns (ok: bool, contents: Option<Bytes>)
      requires machine.Valid()
      ensures ok ==> contents == machine.world.file.visible && Accepted(machine.world, contents)
      ensures machine.healthy && Accepted(machine.world, machine.world.file.visible) ==> ok
    {
      contents := None;
      var content;
      ok, content := machine.OpenManaged();
      if !ok || content.None? { return; }
      if |content.value| == 0 || |content.value| > MAX_DRAFT {
        assert content.value == [] ==> ReadYaml(machine.layout, content.value).None?;
        return false, None;
      }
      var data;
      ok, data := machine.ReadFully(content.value);
      if !ok { return; }
      ok := Canonical(data[..], false);
      contents := Some(data[..]);
    }

    /** replace: temporary file, its fsync, the rename, the directory fsync - in this order. */
    method Replace(contents: Bytes, s: Step) returns (ok: bool)
      requires Held() && (s.Install? || s.Undo?)
      requires machine.world.accepts(contents) ==> Enabled(machine.world, s)
      requires machine.world.accepts(contents) ==>
        Apply(machine.world, s).file == machine.world.file.Rename(Some(contents))
      modifies machine`world
      ensures Held()
      ensures ok ==> Completed(old(machine.world), machine.world, s, SyncFile(actor))
      ensures !ok ==> Abandoned(old(machine.world), machine.world, s)
      ensures machine.healthy && old(machine.world).accepts(contents) && Accepted(old(machine.world), old(machine.world).file.visible) ==> ok
    {
      hide Reachable, StrictReader, ReadYaml, ValidRecord, IsBoot;
      ok := Canonical(contents, false);
      if !ok { return; }
      var previous;
      ok, previous := Backup();
      if !ok { return; }
      var temp := new TempFile();
      ok := machine.WriteFully(temp, contents);
      if ok { ok := machine.Flush(temp); }
      if ok { ok := machine.RenameManaged(temp, s); }
      if !ok { return; }
      ok := machine.Effect(SyncFile(actor));
    }

    /** restore: the backup of the pending record goes back, or the file goes away. */
    method Restore(existed: bool, contents: Bytes) returns (ok: bool)
      requires Held() && Enabled(machine.world, Undo(actor))
      requires var r := machine.world.journal.visible.value; existed == r.previousExists && contents == r.previous
      modifies machine`world
      ensures Held()
      ensures OnlyFile(old(machine.world), machine.world)
      ensures var b := old(machine.world.journal.visible.value.Backup());
        (ok ==> machine.world.file == Entry(b, {b})) &&
        (machine.world.file.visible == b || machine.world.file.visible == old(machine.world.file.visible))
      ensures machine.healthy ==> ok
    {
      hide Reachable, StrictReader, ReadYaml, IsBoot, IsTransaction;
      BackupAccepted(machine.world);
      if existed {
        ok := Replace(contents, Undo(actor));
        return;
      }
      assert ValidRecord(machine.world.journal.visible.value) by {
        ReachableInv(machine.world);
        assert Recorded(machine.world, machine.world.journal.visible);
      }
      if |contents| != 0 { return false; }
      var current;
      ok, current := Backup();
      if !ok { return; }
      if current.Some? {
        ok := machine.Effect(Undo(actor));
        if !ok { return; }
      }
      ok := machine.Effect(SyncFile(actor));
    }
  }

  /** The restore action of the recovery worker: put the file back, then reapply the network. */
  class ManagedRestore {
    const machine: Machine
    const actor: nat
    const platform: WifiPlatform

    constructor (machine: Machine, actor: nat, platform: WifiPlatform)
      ensures this.machine == machine && this.actor == actor && this.platform == platform
    {
      this.machine, this.actor, this.platform := machine, actor, platform;
    }

    /** restore_managed */
    method Run(record: RecoveryRecord) returns (ok: bool)
      requires machine.Valid() && Enabled(machine.world, Undo(actor))
      requires machine.world.journal.visible == Some(record)
      modifies machine`world, platform`granted
      ensures machine.Valid() && OnlyFile(old(machine.world), machine.world)
      ensures ok ==> machine.world.file == Entry(record.Backup(), {record.Backup()})
      ensures ok ==> platform.granted == old(platform.granted) + [NetworkRestored]
      ensures machine.healthy && platform.willing ==> ok
    {
      ok := machine.Attempt();
      if !ok { return; }
      var files := new NetplanFiles(machine, actor);
      ok := files.Restore(record.previousExists, record.previous);
      if !ok { return; }
      ok := platform.Answer(NetworkRestored);
    }
  }
}
