/** The owner of a transaction: server/src/wifi_managed_backend.cpp. */
module ManagedBackend {
  import opened Octets
  import opened Profile
  import opened ConfigDraft
  import opened Records
  import opened Protocol
  import opened Runs
  import opened Machine
  import opened Platform
  import opened NetplanFiles
  import opened Journal
  import opened RecoveryWorker

  /** A record this owner may still act on. */
  method Current(machine: Machine, actor: nat, transaction: Bytes, record: RecoveryRecord) returns (ok: bool)
    requires machine.Valid() && machine.world.lock == Some(actor)
    modifies machine`world
    ensures machine.Valid() && OnlyWatched(old(machine.world), machine.world)
    ensures ok ==> record.phase == Pending && record.transaction == transaction
    ensures machine.healthy && record.phase == Pending && record.transaction == transaction ==> ok || Due(machine.world, record)
  {
    var boot, now;
    ok, boot, now := machine.RecoveryClock(actor);
    ok := ok && record.phase == Pending && record.transaction == transaction &&
      record.bootId == boot && now < record.deadline;
  }

  lemma Deadline(ms: int)
    requires ms > 0
    ensures ms % U64 <= ms && (ms < U64 ==> ms % U64 == ms)
  {}

  /** The record an owner draws up is one the journal can hold. */
  lemma FreshRecordValid(g: Layout, w: World, contents: Option<Bytes>, random: Bytes, r: RecoveryRecord)
    requires StrictReader(w.accepts, g) && Accepted(w, contents) && |random| == 16
    requires r.transaction == HexOf(random) && IsBoot(r.bootId) && 0 < r.deadline < U64
    requires r.previousExists == contents.Some? && r.previous == if contents.Some? then contents.value else []
    ensures ValidRecord(r)
  {
    hide HexOf, IsBoot;
    if contents.Some? { YamlLimit(g, contents.value); }
  }

  lemma YamlLimit(g: Layout, b: Bytes)
    ensures ReadYaml(g, b).Some? ==> |b| <= MAX_BACKUP
  {}

  /** The owner's fields, as one value. */
  datatype OwnerView = OwnerView(
    transaction: Bytes,
    candidate: Bytes,
    target: Option<WifiProfile>,
    attempted: bool,
    prepared: bool,
    activated: bool,
    committed: bool,
    restored: bool)

  /** What the owner's fields promise about the world; stable under everything others do. */
  ghost predicate Sound(w: World, g: Layout, a: nat, v: OwnerView) {
    && (v.transaction != [] ==> Owns(w, a, v.transaction))
    && (forall t :: t in w.txs && Owns(w, a, t) ==> t == v.transaction && t != [])
    && (!v.attempted ==> v.transaction == [] && !v.prepared)
    && (v.prepared ==>
          v.transaction != [] && v.transaction in w.txs && v.transaction in w.armed)
    && (v.transaction != [] && v.transaction in w.txs ==> w.txs[v.transaction].bootId == w.bootId)
    && (v.prepared && v.target.Some? ==>
          && ValidProfile(v.target.value) && v.candidate == Yaml(g, v.target.value)
          && v.transaction in w.txs && w.txs[v.transaction].candidate == v.candidate)
    && (v.activated ==> v.prepared && v.transaction in w.installed)
    && (v.committed ==> v.activated && v.transaction in w.settled)
    && (v.restored ==> v.transaction != [] && v.transaction in w.restored)
  }

  lemma SoundOnward(w: World, w': World, g: Layout, a: nat, v: OwnerView)
    requires Sound(w, g, a, v) && Reachable(w)
    requires Onward(w, w') && w'.txs == w.txs && w.installed <= w'.installed
    ensures Sound(w', g, a, v)
  {
    ReachableInv(w);
  }

  lemma SoundForOthers(w: World, w': World, g: Layout, a: nat, v: OwnerView)
    requires Sound(w, g, a, v) && Reachable(w) && OthersMoved(w, w', a)
    ensures Sound(w', g, a, v)
  {
    ReachableInv(w);
  }

  /** Neither directory has changed. */
  ghost predicate SameDisk(w: World, w': World) {
    w'.journal == w.journal && w'.file == w.file
  }

  lemma SoundWatched(w: World, w': World, g: Layout, a: nat, v: OwnerView)
    requires Sound(w, g, a, v) && OnlyWatched(w, w')
    ensures Sound(w', g, a, v) && Onward(w, w')
  {}

  lemma SoundAfterBegin(w: World, g: Layout, a: nat, v: OwnerView, r: RecoveryRecord)
    requires Sound(w, g, a, v) && v.attempted && !v.prepared && !v.activated && v.transaction == r.transaction != []
    requires Enabled(w, Begin(a, r, v.candidate))
    ensures var w' := Apply(w, Begin(a, r, v.candidate));
      Sound(w', g, a, v) && Onward(w, w') && w'.file == w.file && w'.lock == w.lock
  {
    hide Yaml, ValidProfile, IsBoot, ValidRecord;
  }

  lemma SoundAfterSync(w: World, g: Layout, a: nat, v: OwnerView)
    requires Sound(w, g, a, v) && w.lock == Some(a) && w.PendingOf(v.transaction) && v.transaction in w.txs && !v.activated
    requires v.target.Some? && ValidProfile(v.target.value) && v.candidate == Yaml(g, v.target.value)
    requires w.txs[v.transaction].candidate == v.candidate && v.transaction != []
    ensures var w' := Apply(w, SyncJournal(a));
      Sound(w', g, a, v) && Onward(w, w') && Sound(w', g, a, v.(prepared := true))
  {
    hide Yaml, ValidProfile;
  }

  /** Beginning, completed or not, keeps the owner sound; completed, it may call itself prepared. */
  lemma SoundBegun(w: World, w': World, g: Layout, a: nat, v: OwnerView, r: RecoveryRecord)
    requires Sound(w, g, a, v) && v.attempted && !v.prepared && !v.activated && v.transaction == r.transaction != []
    requires v.target.Some? && ValidProfile(v.target.value) && v.candidate == Yaml(g, v.target.value)
    requires Completed(w, w', Begin(a, r, v.candidate), SyncJournal(a)) || Abandoned(w, w', Begin(a, r, v.candidate))
    ensures Sound(w', g, a, v) && Onward(w, w') && w'.file == w.file && w'.lock == w.lock
    ensures IsPending(w.journal.visible) ==> w' == w
    ensures Completed(w, w', Begin(a, r, v.candidate), SyncJournal(a)) ==>
      Sound(w', g, a, v.(prepared := true)) && Proposed(w', r.transaction, v.candidate) && w'.journal.visible == Some(r)
  {
    if w' != w {
      SoundAfterBegin(w, g, a, v, r);
      var begun := Apply(w, Begin(a, r, v.candidate));
      if w' != begun || Completed(w, w', Begin(a, r, v.candidate), SyncJournal(a)) {
        SoundAfterSync(begun, g, a, v);
      }
    }
    hide Sound, Yaml, ValidProfile, ValidRecord, IsBoot;
  }

  /** Right after preparation: pending, durable, and the file still the original. */
  ghost predicate Proposed(w: World, t: Bytes, candidate: Bytes) {
    && w.PendingOf(t) && w.journal.durable == {w.journal.visible}
    && t in w.txs && w.txs[t].candidate == candidate
    && w.txs[t].original == w.file.visible == w.journal.visible.value.Backup()
  }

  /** The DHCPv6 setting of the installed file, if there is one. */
  ghost function PolicyOf(g: Layout, installed: Option<Bytes>, otherwise: Option<bool>): Option<bool> {
    if installed.Some? && ReadYaml(g, installed.value).Some? then ReadYaml(g, installed.value).value.dhcp6 else otherwise
  }

  /** No transaction is pending and the managed file, if any, is acceptable. */
  ghost predicate Preparable(w: World) {
    !IsPending(w.journal.visible) && Accepted(w, w.file.visible)
  }

  /** The transaction is pending and the file still is what was backed up. */
  ghost predicate Activatable(w: World, t: Bytes) {
    w.PendingOf(t) && w.file.visible == w.journal.visible.value.Backup() && Accepted(w, w.file.visible)
  }

  lemma ValidIsPrintable(p: WifiProfile)
    requires ValidProfile(p)
    ensures Printable(p)
  {}

  /** The deadline of the pending transaction t has passed, or its boot is over. */
  /** The lock is free and the record is that of t, still pending or restored already. */
  ghost predicate Reversible(w: World, t: Bytes) {
    w.lock.None? && (w.PendingOf(t) || t in VisibleIn(w, Restored))
  }

  ghost predicate Overdue(w: World, t: Bytes) {
    w.PendingOf(t) && Due(w, w.journal.visible.value)
  }

  lemma DraftAccepted(accepts: Bytes -> bool, g: Layout, p: WifiProfile)
    requires StrictReader(accepts, g) && ValidProfile(p)
    ensures accepts(Yaml(g, p))
  {
    YamlRoundTrip(g, p);
  }

  /** The requested profile under the installed DHCPv6 policy. */
  ghost function Inherited(g: Layout, w: World, p: WifiProfile): WifiProfile {
    p.WithDhcp6(PolicyOf(g, w.file.visible, p.dhcp6))
  }

  /** Time has passed and at most one identity was drawn. */
  ghost predicate OnlyIdentified(w: World, w': World) {
    w' == w.(clock := w'.clock, reading := w'.reading, drawn := w'.drawn) && w'.clock >= w.clock
  }

  lemma SoundRetargeted(w: World, g: Layout, a: nat, v: OwnerView, candidate: Bytes, target: Option<WifiProfile>)
    requires Sound(w, g, a, v) && !v.prepared
    ensures Sound(w, g, a, v.(candidate := candidate, target := target))
  {}

  lemma SoundIdentified(w: World, w': World, g: Layout, a: nat, v: OwnerView, id: Bytes)
    requires Reachable(w) && Sound(w, g, a, v) && v.attempted && v.transaction == [] && !v.prepared
    requires OnlyIdentified(w, w')
    requires if id == [] then w'.drawn == w.drawn else id !in w.drawn && w'.drawn == w.drawn[id := a]
    ensures Sound(w', g, a, v.(transaction := id)) && Onward(w, w') && (id != [] ==> id !in w'.txs)
  {
    ReachableInv(w);
  }

  /** Taking or dropping the lock changes nothing an owner relies on. */
  lemma SoundLocked(w: World, w': World, g: Layout, a: nat, v: OwnerView)
    requires Sound(w, g, a, v) && w' == w.(lock := w'.lock, live := w'.live, reading := w'.reading)
    ensures Sound(w', g, a, v) && Onward(w, w')
  {}

  lemma MayInstall(w: World, g: Layout, a: nat, v: OwnerView)
    requires Reachable(w) && Sound(w, g, a, v) && v.prepared && v.target.Some? && w.lock == Some(a)
    requires w.PendingOf(v.transaction) && w.file.visible == w.journal.visible.value.Backup()
    ensures Enabled(w, Install(a)) && Apply(w, Install(a)).file == w.file.Rename(Some(v.candidate))
  {
    ReachableInv(w);
    assert Agrees(w, w.journal.visible, w.file.visible);
  }

  lemma OwnBoot(w: World, g: Layout, a: nat, v: OwnerView)
    requires Reachable(w) && Sound(w, g, a, v) && v.transaction != []
    ensures w.journal.visible.Some? && w.journal.visible.value.transaction == v.transaction ==>
      w.journal.visible.value.bootId == w.bootId
  {
    ReachableInv(w);
    assert Recorded(w, w.journal.visible);
  }

  lemma CandidateAccepted(w: World, g: Layout, a: nat, v: OwnerView)
    requires Sound(w, g, a, v) && v.prepared && v.target.Some? && StrictReader(w.accepts, g)
    ensures w.accepts(v.candidate)
  {
    DraftAccepted(w.accepts, g, v.target.value);
  }

  /** Installing, completed or not, keeps the owner sound; completed, it may call itself activated. */
  lemma SoundInstalled(w: World, w': World, g: Layout, a: nat, v: OwnerView)
    requires Sound(w, g, a, v) && v.prepared && !v.activated && v.target.Some? && w.PendingOf(v.transaction)
    requires Completed(w, w', Install(a), SyncFile(a)) || Abandoned(w, w', Install(a))
    ensures Sound(w', g, a, v) && Onward(w, w') && w'.journal == w.journal && w'.lock == w.lock
    ensures Completed(w, w', Install(a), SyncFile(a)) ==>
      Sound(w', g, a, v.(activated := true)) && w'.file == Entry(Some(v.candidate), {Some(v.candidate)})
  {
    hide Reachable, Yaml, ValidProfile, IsBoot, ValidRecord;
  }

  class WifiManagedBackend {
    const machine: Machine
    const platform: WifiPlatform
    const actor: nat
    var transaction: Bytes
    var candidate: Bytes
    var target: Option<WifiProfile>
    var attempted: bool
    var prepared: bool
    var activated: bool
    var committed: bool
    var restored: bool

    function View(): OwnerView
      reads this
    {
      OwnerView(transaction, candidate, target, attempted, prepared, activated, committed, restored)
    }

    ghost predicate Valid()
      reads this, machine
    {
      Idle(machine, actor) && Sound(machine.world, machine.layout, actor, View())
    }

    constructor (machine: Machine, platform: WifiPlatform, actor: nat)
      requires Idle(machine, actor) && forall t :: t in machine.world.drawn ==> machine.world.drawn[t] != actor
      ensures Valid() && this.machine == machine && this.platform == platform && this.actor == actor
      ensures View() == OwnerView([], [], None, false, false, false, false, false)
    {
      this.machine, this.platform, this.actor := machine, platform, actor;
      transaction, candidate, target := [], [], None;
      attempted, prepared, activated, committed, restored := false, false, false, false, false;
    }

    /** The owner's view survives everything others do while it is not running. */
    method Wait()
      requires Valid()
      modifies machine`world
      ensures Valid() && OthersMoved(old(machine.world), machine.world, actor) && Kept(old(machine.world), machine.world)
    {
      machine.Interfere(actor);
      SoundForOthers(old(machine.world), machine.world, machine.layout, actor, View());
    }

    /** The candidate is the printed profile; the target is what reading it back gives. */
    method Propose(profile: WifiProfile) returns (ok: bool)
      modifies this`candidate, this`target
      ensures ok ==> Targeted()
      ensures ValidProfile(profile) ==> ok && target == Some(profile)
    {
      if ValidProfile(profile) { ValidIsPrintable(profile); }
      hide ValidProfile, Yaml, ReadYaml, Printable;
      var draft := MakeWifiConfigDraft(machine.layout, profile);
      if draft.None? { return false; }
      candidate := draft.value.netplanYaml;
      target := ReadWifiConfigDraft(machine.layout, candidate, machine.derive);
      ok := target.Some?;
      if ok && ValidProfile(profile) { YamlRoundTrip(machine.layout, profile); }
      if ok { YamlExact(machine.layout, candidate); }
    }

    /** The DHCPv6 policy of the installed file. */
    method ReadPolicy(installed: Bytes) returns (ok: bool, dhcp6: Option<bool>)
      ensures ok ==> dhcp6 == PolicyOf(machine.layout, Some(installed), None)
      ensures ok <==> ReadYaml(machine.layout, installed).Some?
    {
      var profile := ReadWifiConfigDraft(machine.layout, installed, machine.derive);
      ok := profile.Some?;
      dhcp6 := if ok then profile.value.dhcp6 else None;
    }

    /** Credentials may change; the installed DHCPv6 policy does not. */
    method Inherit(previous: Option<Bytes>) returns (ok: bool)
      requires Targeted()
      modifies this`candidate, this`target
      ensures ok ==> Targeted()
      ensures ok ==> target.value == old(target).value.WithDhcp6(PolicyOf(machine.layout, previous, old(target).value.dhcp6))
      ensures ok <==> previous.None? || ReadYaml(machine.layout, previous.value).Some?
    {
      if previous.None? { return true; }
      var dhcp6;
      ok, dhcp6 := ReadPolicy(previous.value);
      if !ok { return; }
      target := Some(target.value.WithDhcp6(dhcp6));
      var inherited := MakeWifiConfigDraft(machine.layout, target.value);
      if inherited.None? { return false; }
      candidate := inherited.value.netplanYaml;
    }

    /** A target the printer and the reader agree on, and its draft. */
    ghost predicate Targeted()
      reads this
    {
      target.Some? && ValidProfile(target.value) && candidate == Yaml(machine.layout, target.value)
    }

    /** Under the lock: no other transaction pending, the backup taken, the policy inherited. */
    method Survey() returns (ok: bool, contents: Option<Bytes>)
      requires machine.Valid() && machine.world.lock == Some(actor) && Targeted()
      modifies this`candidate, this`target
      ensures ok ==> Targeted() && !IsPending(machine.world.journal.visible)
      ensures ok ==> contents == machine.world.file.visible && Accepted(machine.world, contents)
      ensures ok ==> target.value == Inherited(machine.layout, machine.world, old(target).value)
      ensures machine.healthy && !IsPending(machine.world.journal.visible) && Accepted(machine.world, machine.world.file.visible) ==> ok
    {
      contents := None;
      var journal := new WifiJournal(machine, actor);
      var existing;
      ok, existing := journal.Load();
      if !ok { return; }
      if IsPending(existing) { return false, None; }
      ok := machine.Attempt();
      if !ok { return; }
      var files := new NetplanFiles(machine, actor);
      ok, contents := files.Backup();
      if ok { ok := Inherit(contents); }
    }

    /** Under the lock: the clock, the deadline, a fresh identity. */
    method Identify(lifetime: int, contents: Option<Bytes>) returns (ok: bool, record: RecoveryRecord)
      requires machine.Valid() && machine.world.lock == Some(actor) && lifetime > 0 && transaction == []
      modifies this`transaction, machine`world
      ensures machine.Valid() && OnlyIdentified(old(machine.world), machine.world)
      ensures !ok ==> transaction == [] && machine.world.drawn == old(machine.world).drawn
      ensures ok ==> transaction != [] && transaction !in old(machine.world).drawn
      ensures ok ==> machine.world.drawn == old(machine.world).drawn[transaction := actor]
      ensures ok ==> record.phase == Pending && record.transaction == transaction && record.bootId == machine.world.bootId
      ensures ok ==> record.Backup() == contents && record.deadline == (machine.world.clock + lifetime * 1000) % U64
      ensures ok ==> record.deadline <= machine.world.clock + lifetime * 1000
      ensures ok && Accepted(machine.world, contents) && machine.world.clock + lifetime * 1000 < U64 ==> ValidRecord(record)
    {
      hide Reachable, ReadYaml, ValidRecord, IsBoot, HexOf;
      record := RecoveryRecord(Pending, false, [], [], 0, []);
      var boot, now;
      ok, boot, now := machine.RecoveryClock(actor);
      if !ok { return; }
      var random;
      ok, random := machine.RandomIdentity(actor);
      if !ok { return; }
      transaction := WriteHex(random);
      record := RecoveryRecord(Pending, contents.Some?, transaction, boot, (now + lifetime * 1000) % U64,
        if contents.Some? then contents.value else []);
      Deadline(now + lifetime * 1000);
      if Accepted(machine.world, contents) && now + lifetime * 1000 < U64 {
        FreshRecordValid(machine.layout, machine.world, contents, random, record);
      }
    }

    /** The journal entry; completed, it lets the owner call itself prepared. */
    method Journalise(record: RecoveryRecord) returns (ok: bool)
      requires machine.Valid() && machine.world.lock == Some(actor) && Targeted()
      requires Sound(machine.world, machine.layout, actor, View()) && attempted && !prepared && !activated
      requires transaction == record.transaction != [] && transaction !in machine.world.txs && record.phase == Pending
      requires record.bootId == machine.world.bootId && record.Backup() == machine.world.file.visible
      requires Accepted(machine.world, record.Backup())
      modifies machine`world
      ensures machine.Valid() && machine.world.lock == Some(actor) && Sound(machine.world, machine.layout, actor, View())
      ensures Onward(old(machine.world), machine.world) && machine.world.file == old(machine.world).file
      ensures ok ==> Sound(machine.world, machine.layout, actor, View().(prepared := true))
      ensures ok ==> Proposed(machine.world, transaction, candidate) && machine.world.journal.visible == Some(record)
      ensures IsPending(old(machine.world).journal.visible) ==> !ok && SameDisk(old(machine.world), machine.world)
      ensures machine.healthy && ValidRecord(record) && !IsPending(old(machine.world).journal.visible) ==> ok
    {
      DraftAccepted(machine.world.accepts, machine.layout, target.value);
      var journal := new WifiJournal(machine, actor);
      ok := journal.Begin(record, candidate);
      SoundBegun(old(machine.world), machine.world, machine.layout, actor, View(), record);
    }

    /** The rest of prepare under the lock: journal the record, then look again. */
    method Register(record: RecoveryRecord) returns (ok: bool)
      requires machine.Valid() && machine.world.lock == Some(actor) && Targeted()
      requires Sound(machine.world, machine.layout, actor, View()) && attempted && !prepared && !activated
      requires transaction == record.transaction != [] && transaction !in machine.world.txs && record.phase == Pending
      requires record.bootId == machine.world.bootId && record.Backup() == machine.world.file.visible
      requires Accepted(machine.world, record.Backup())
      modifies this`prepared, machine`world, platform`granted
      ensures machine.Valid() && Sound(machine.world, machine.layout, actor, View()) && machine.world.lock == Some(actor)
      ensures Onward(old(machine.world), machine.world) && machine.world.file == old(machine.world).file
      ensures prepared == ok
      ensures ok ==> Proposed(machine.world, transaction, candidate) && machine.world.journal.visible == Some(record)
      ensures IsPending(old(machine.world).journal.visible) ==> !ok && SameDisk(old(machine.world), machine.world)
      ensures ok ==> platform.granted == old(platform.granted) + [WatchdogArmed]
      ensures machine.healthy && platform.willing && ValidRecord(record) && !IsPending(old(machine.world).journal.visible)
        ==> ok || Overdue(machine.world, transaction)
    {
      hide Sound, Reachable, Yaml, ValidProfile, StrictReader, ValidRecord;
      ok := Journalise(record);
      if !ok { return; }
      ghost var v, w := View(), machine.world;
      ok := platform.Answer(WatchdogArmed);
      if !ok { return; }
      ok := Current(machine, actor, transaction, record);
      SoundWatched(w, machine.world, machine.layout, actor, v.(prepared := ok));
      prepared := ok;
    }

    /** prepare, once the lock is held. */
    method PrepareUnderLock(lifetime: int) returns (ok: bool)
      requires machine.Valid() && machine.world.lock == Some(actor) && Targeted() && 0 < lifetime <= 90
      requires Sound(machine.world, machine.layout, actor, View()) && attempted && transaction == [] && !prepared
      requires !activated && !committed && !restored
      modifies this, machine`world, platform`granted
      ensures machine.Valid() && Sound(machine.world, machine.layout, actor, View()) && machine.world.lock == Some(actor)
      ensures Onward(old(machine.world), machine.world) && machine.world.file == old(machine.world).file
      ensures attempted && prepared == ok && !activated && !committed && !restored
      ensures transaction == [] || IsPending(old(machine.world).journal.visible) ==> !ok && SameDisk(old(machine.world), machine.world)
      ensures ok ==> Proposed(machine.world, transaction, candidate) && target.Some?
      ensures ok ==> machine.world.journal.visible.value.deadline <= machine.world.clock + lifetime * 1000
      ensures ok ==> target.value == Inherited(machine.layout, old(machine.world), old(target).value)
      ensures ok ==> platform.granted == old(platform.granted) + [WatchdogArmed]
      ensures machine.healthy && platform.willing && Preparable(old(machine.world)) && machine.world.clock + lifetime * 1000 < U64
        ==> ok || transaction == [] || Overdue(machine.world, transaction)
    {
      hide ValidRecord, Sound, Reachable, Yaml, ValidProfile, StrictReader;
      ghost var v, w := View(), machine.world;
      var contents, record;
      ok, contents := Survey();
      SoundRetargeted(w, machine.layout, actor, v, candidate, target);
      if !ok { return; }
      ok, record := Identify(lifetime, contents);
      SoundIdentified(w, machine.world, machine.layout, actor, v.(candidate := candidate, target := target), transaction);
      if !ok { return; }
      ok := Register(record);
    }

    /** prepare, from taking the lock to dropping it. */
    method LockAndPrepare(lifetime: int) returns (ok: bool)
      requires Valid() && Targeted() && 0 < lifetime <= 90 && attempted && transaction == [] && !prepared
      requires !activated && !committed && !restored
      modifies this, machine`world, platform`granted
      ensures Valid() && Onward(old(machine.world), machine.world) && Kept(old(machine.world), machine.world)
      ensures machine.world.file == old(machine.world).file
      ensures attempted && prepared == ok && !activated && !committed && !restored
      ensures transaction == [] || IsPending(old(machine.world).journal.visible) ==> !ok && SameDisk(old(machine.world), machine.world)
      ensures ok ==> Proposed(machine.world, transaction, candidate) && target.Some? && candidate == Yaml(machine.layout, target.value)
      ensures ok ==> machine.world.journal.visible.value.deadline <= machine.world.clock + lifetime * 1000
      ensures ok ==> target.value == Inherited(machine.layout, old(machine.world), old(target).value)
      ensures ok ==> platform.granted == old(platform.granted) + [WatchdogArmed]
      ensures (machine.healthy && platform.willing && Preparable(old(machine.world)) && old(machine.world).lock.None? &&
        machine.world.clock + lifetime * 1000 < U64) ==> ok || transaction == [] || Overdue(machine.world, transaction)
    {
      hide Reachable, StrictReader, Yaml;
      ok := machine.TakeLock(actor);
      if !ok { return; }
      ok := PrepareUnderLock(lifetime);
      machine.DropLock(actor);
    }

    /** prepare: nothing but the journal changes, and only if no transaction is pending. */
    method Prepare(profile: WifiProfile, lifetime: int) returns (ok: bool)
      requires Valid()
      modifies this, machine`world, platform`granted
      ensures Valid() && Onward(old(machine.world), machine.world) && Kept(old(machine.world), machine.world) && attempted
      ensures machine.world.file == old(machine.world).file
      ensures old(attempted) ==> !ok && View() == old(View()) && SameDisk(old(machine.world), machine.world)
      ensures !old(attempted) ==> prepared == ok && !activated && !committed && !restored
      ensures transaction == [] || IsPending(old(machine.world).journal.visible) ==> !ok && SameDisk(old(machine.world), machine.world)
      ensures ok ==> Proposed(machine.world, transaction, candidate)
      ensures ok ==> machine.world.journal.visible.value.deadline <= machine.world.clock + 90000
      ensures ok ==> target.Some? && candidate == Yaml(machine.layout, target.value)
      ensures ok && ValidProfile(profile) ==> target.value == Inherited(machine.layout, old(machine.world), profile)
      ensures ok && ValidProfile(profile) ==>
        platform.granted == old(platform.granted) + [EthernetUp, Preflighted(profile), WatchdogArmed, WatchdogArmed]
      ensures machine.healthy && platform.willing && old(machine.world).lock.None? && !old(attempted) && 0 < lifetime <= 90 &&
        ValidProfile(profile) && Preparable(old(machine.world)) && machine.world.clock + 90000 < U64
        ==> ok || transaction == [] || Overdue(machine.world, transaction)
    {
      if attempted { return false; }
      attempted := true;
      if lifetime <= 0 || lifetime > 90 { return false; }
      ok := Propose(profile);
      if !ok { return; }
      ok := platform.SafetyChecks(target.value);
      if !ok { return; }
      ok := LockAndPrepare(lifetime);
    }

    /** The first half of activate: still our pending transaction, checks passed, file untouched since the backup. */
    method Untouched() returns (ok: bool, record: RecoveryRecord)
      requires machine.Valid() && machine.world.lock == Some(actor) && target.Some?
      modifies machine`world, platform`granted
      ensures machine.Valid() && OnlyWatched(old(machine.world), machine.world)
      ensures ok ==> machine.world.PendingOf(transaction) && machine.world.journal.visible == Some(record)
      ensures ok ==> machine.world.file.visible == record.Backup()
      ensures ok ==> platform.granted == old(platform.granted) + [EthernetUp, Preflighted(target.value), WatchdogArmed]
      ensures machine.healthy && platform.willing && Activatable(old(machine.world), transaction)
        ==> ok || Overdue(machine.world, transaction)
    {
      record := RecoveryRecord(Pending, false, [], [], 0, []);
      var journal := new WifiJournal(machine, actor);
      var loaded;
      ok, loaded := journal.Load();
      if !ok || loaded.None? { return false, record; }
      record := loaded.value;
      ok := Current(machine, actor, transaction, record);
      if !ok { return; }
      ok := platform.SafetyChecks(target.value);
      if !ok { return; }
      ok := machine.Attempt();
      if !ok { return; }
      var files := new NetplanFiles(machine, actor);
      var before;
      ok, before := files.Backup();
      if !ok || before != record.Backup() { return false, record; }
      ok := Current(machine, actor, transaction, record);
    }

    /** The swap itself. */
    method Swap(record: RecoveryRecord) returns (ok: bool)
      requires machine.Valid() && machine.world.lock == Some(actor) && prepared && !activated && target.Some?
      requires Sound(machine.world, machine.layout, actor, View())
      requires machine.world.PendingOf(transaction) && machine.world.journal.visible == Some(record)
      requires machine.world.file.visible == record.Backup()
      modifies machine`world
      ensures machine.Valid() && machine.world.lock == Some(actor) && Sound(machine.world, machine.layout, actor, View())
      ensures Onward(old(machine.world), machine.world) && machine.world.journal == old(machine.world).journal
      ensures ok ==> Sound(machine.world, machine.layout, actor, View().(activated := true))
      ensures ok ==> machine.world.file == Entry(Some(candidate), {Some(candidate)})
      ensures machine.healthy ==> ok
    {
      BackupAccepted(machine.world);
      DraftAccepted(machine.world.accepts, machine.layout, target.value);
      MayInstall(machine.world, machine.layout, actor, View());
      var files := new NetplanFiles(machine, actor);
      ok := files.Replace(candidate, Install(actor));
      SoundInstalled(old(machine.world), machine.world, machine.layout, actor, View());
    }

    /** The second half of activate: the target applied, the candidate still in the file, the transaction still pending. */
    method ApplyTarget(record: RecoveryRecord) returns (ok: bool)
      requires machine.Valid() && machine.world.lock == Some(actor) && target.Some?
      modifies machine`world, platform`granted
      ensures machine.Valid() && OnlyWatched(old(machine.world), machine.world)
      ensures ok ==> machine.world.file.visible == Some(candidate)
      ensures ok ==> platform.granted == old(platform.granted) + [Applied(target.value)]
      ensures (machine.healthy && platform.willing && ShowsDraft(old(machine.world), transaction, candidate) &&
        machine.world.journal.visible == Some(record)) ==> ok || Overdue(machine.world, transaction)
    {
      hide Reachable, StrictReader;
      ok := platform.Answer(Applied(target.value));
      if !ok { return; }
      var files := new NetplanFiles(machine, actor);
      ok := Persists(files, candidate);
      if !ok { return; }
      ok := Current(machine, actor, transaction, record);
    }

    /** The first half of activate and the swap. */
    method Exchange() returns (ok: bool, record: RecoveryRecord)
      requires machine.Valid() && machine.world.lock == Some(actor) && prepared && !activated && target.Some?
      requires Sound(machine.world, machine.layout, actor, View())
      modifies machine`world, platform`granted
      ensures machine.Valid() && machine.world.lock == Some(actor) && Sound(machine.world, machine.layout, actor, View())
      ensures Onward(old(machine.world), machine.world) && machine.world.journal == old(machine.world).journal
      ensures ok ==> Sound(machine.world, machine.layout, actor, View().(activated := true))
      ensures ok ==> machine.world.file == Entry(Some(candidate), {Some(candidate)})
      ensures ok ==> machine.world.PendingOf(transaction) && machine.world.journal.visible == Some(record)
      ensures ok ==> platform.granted == old(platform.granted) + [EthernetUp, Preflighted(target.value), WatchdogArmed]
      ensures !old(machine.world).PendingOf(transaction) ==> !ok && SameDisk(old(machine.world), machine.world)
      ensures machine.healthy && platform.willing && Activatable(old(machine.world), transaction)
        ==> ok || Overdue(machine.world, transaction)
    {
      hide Sound, Reachable, Yaml, ValidProfile, StrictReader, Activatable, Accepted;
      ok, record := Untouched();
      SoundWatched(old(machine.world), machine.world, machine.layout, actor, View());
      if ok { ok := Swap(record); }
    }

    /** activate, once the lock is held. */
    method ActivateUnderLock() returns (ok: bool)
      requires machine.Valid() && machine.world.lock == Some(actor) && prepared && !activated && target.Some?
      requires Sound(machine.world, machine.layout, actor, View())
      modifies this`activated, machine`world, platform`granted
      ensures machine.Valid() && machine.world.lock == Some(actor) && Sound(machine.world, machine.layout, actor, View())
      ensures Onward(old(machine.world), machine.world) && machine.world.journal == old(machine.world).journal
      ensures activated == ok
      ensures ok ==> machine.world.file == Entry(Some(candidate), {Some(candidate)})
      ensures ok ==>
        platform.granted == old(platform.granted) + [EthernetUp, Preflighted(target.value), WatchdogArmed, Applied(target.value)]
      ensures !old(machine.world).PendingOf(transaction) ==> !ok && SameDisk(old(machine.world), machine.world)
      ensures machine.healthy && platform.willing && Activatable(old(machine.world), transaction)
        ==> ok || Overdue(machine.world, transaction)
    {
      CandidateAccepted(machine.world, machine.layout, actor, View());
      hide Sound, Reachable, Yaml, ValidProfile, StrictReader, Activatable, Accepted, Onward, Due, Overdue, SameDisk;
      var record;
      ok, record := Exchange();
      if !ok { return; }
      ghost var v, w := View(), machine.world;
      ok := ApplyTarget(record);
      SoundWatched(w, machine.world, machine.layout, actor, v.(activated := ok));
      OnwardThen(old(machine.world), w, machine.world);
      activated := ok;
    }

    /** activate: the file changes only while our own transaction is the pending one. */
    method Activate() returns (ok: bool)
      requires Valid()
      modifies this, machine`world, platform`granted
      ensures Valid() && Onward(old(machine.world), machine.world) && Kept(old(machine.world), machine.world)
      ensures View() == old(View()).(activated := old(activated) || ok)
      ensures machine.world.journal == old(machine.world).journal
      ensures ok ==> prepared && !old(activated) && target.Some? && machine.world.PendingOf(transaction)
      ensures ok ==> machine.world.file == Entry(Some(candidate), {Some(candidate)})
      ensures ok ==> var t := target.value;
        platform.granted == old(platform.granted) + [EthernetUp, Preflighted(t), WatchdogArmed, Applied(t)]
      ensures machine.healthy && platform.willing && old(machine.world).lock.None? && Activatable(old(machine.world), transaction) &&
        prepared && !old(activated) && !committed && !restored && target.Some?
        ==> ok || Overdue(machine.world, transaction)
      ensures !old(machine.world).PendingOf(transaction) ==> !ok && SameDisk(old(machine.world), machine.world)
    {
      if !prepared || activated || committed || restored || target.None? { return false; }
      ok := machine.TakeLock(actor);
      if !ok { return; }
      SoundLocked(old(machine.world), machine.world, machine.layout, actor, View());
      ok := ActivateUnderLock();
      ghost var w := machine.world;
      machine.DropLock(actor);
      SoundLocked(w, machine.world, machine.layout, actor, View());
    }

    /** probe */
    method Probe() returns (link: WifiLink)
      modifies platform`granted
      ensures link != LinkFailed ==> activated && !committed && !restored && target.Some?
      ensures link == LinkReady ==> platform.granted == old(platform.granted) + [WatchdogArmed, Connected(target.value)]
      ensures link == LinkPending ==> platform.granted == old(platform.granted) + [WatchdogArmed]
      ensures platform.willing && activated && !committed && !restored && target.Some? ==> link == LinkReady
    {
      if !activated || committed || restored || target.None? { return LinkFailed; }
      var watched := platform.Answer(WatchdogArmed);
      if !watched { return LinkFailed; }
      link := platform.ProbeTarget(target.value);
    }

    /** rollback */
    method Rollback() returns (ok: bool)
      requires Valid()
      modifies this, machine`world, platform`granted
      ensures Valid() && Onward(old(machine.world), machine.world) && Kept(old(machine.world), machine.world)
      ensures View() == old(View()).(restored := restored, target := target, candidate := candidate)
      ensures old(committed) ==> !ok
      ensures ok ==> transaction == [] || (restored && transaction in machine.world.restored)
      ensures ok && !old(restored) && transaction != [] ==> BackOnDisk(machine.world, transaction)
      ensures ok ==> !old(committed) && (transaction == [] || old(restored) || Reversible(old(machine.world), transaction))
      ensures !old(machine.world).PendingOf(transaction) ==> SameDisk(old(machine.world), machine.world)
      ensures machine.healthy && platform.willing && !old(committed) ==>
        ok || (transaction != [] && !old(restored) && !Reversible(old(machine.world), transaction))
    {
      hide Reachable, Yaml, ValidProfile, StrictReader;
      if committed { return false; }
      if transaction == [] || restored { target, candidate := None, []; return true; }
      OwnBoot(machine.world, machine.layout, actor, View());
      var outcome := ManagedCancel(machine, platform, actor, transaction);
      SoundOnward(old(machine.world), machine.world, machine.layout, actor, View());
      if outcome != RestoredNow && outcome != Nothing { return false; }
      RestoredIsBack(machine.world, transaction);
      restored := true;
      target, candidate := None, [];
      ok := true;
    }

    /** commit */
    method Commit() returns (ok: bool)
      requires Valid()
      modifies this, machine`world, platform`granted
      ensures Valid() && Onward(old(machine.world), machine.world) && Kept(old(machine.world), machine.world)
      ensures View() == old(View()).(committed := old(committed) || ok, target := target, candidate := candidate)
      ensures machine.world.file == old(machine.world).file
      ensures ok ==> !old(committed) && Settled(machine.world, transaction) && old(target).Some?
      ensures ok ==> var t := old(target).value;
        platform.granted == old(platform.granted) + [EthernetUp, Preflighted(t), WatchdogArmed, Connected(t)]
      ensures !old(machine.world).PendingOf(transaction) ==> !ok && SameDisk(old(machine.world), machine.world)
      ensures machine.healthy && platform.willing && old(machine.world).lock.None? && Awaiting(old(machine.world), transaction) &&
        activated && !old(committed) && !restored && old(target).Some?
        ==> ok || Due(machine.world, old(machine.world).journal.visible.value)
    {
      hide Reachable, Yaml, ValidProfile, StrictReader, Settled;
      if !activated || committed || restored || target.None? { return false; }
      ok := ManagedCommit(machine, platform, actor, transaction, target.value);
      SoundOnward(old(machine.world), machine.world, machine.layout, actor, View());
      if !ok { return; }
      committed := true;
      target, candidate := None, [];
    }
  }
}
