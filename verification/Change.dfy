/** The in-memory change: common/src/wifi_change.cpp over the managed backend. */
module Change {
  import opened Octets
  import opened Profile
  import opened ConfigDraft
  import P = Protocol
  import R = Runs
  import M = Machine
  import opened Platform
  import opened ManagedBackend
  import W = RecoveryWorker

  const LIFETIME := 90

  datatype ChangeState = Idle | Connecting | AwaitingConfirmation | Committed | RolledBack | RecoveryRequired

  /** A call on the backend and whether it succeeded. */
  datatype Call = PrepareCall(ok: bool) | ActivateCall(ok: bool) | CommitCall(ok: bool) | RollbackCall(ok: bool)

  predicate Pending(s: ChangeState) {
    s == Connecting || s == AwaitingConfirmation
  }

  /** The calls a change can have made when it is in state s. */
  ghost predicate Trace(s: ChangeState, calls: seq<Call>) {
    match s
    case Idle => calls == []
    case Connecting => calls == [PrepareCall(true), ActivateCall(true)]
    case AwaitingConfirmation => calls == [PrepareCall(true), ActivateCall(true)]
    case Committed => calls == [PrepareCall(true), ActivateCall(true), CommitCall(true)]
    case RolledBack => Reverted(calls, true)
    case RecoveryRequired => Reverted(calls, false)
  }

  ghost predicate Reverted(calls: seq<Call>, ok: bool) {
    || calls == [PrepareCall(false), RollbackCall(ok)]
    || calls == [PrepareCall(true), ActivateCall(false), RollbackCall(ok)]
    || calls == [PrepareCall(true), ActivateCall(true), RollbackCall(ok)]
    || calls == [PrepareCall(true), ActivateCall(true), CommitCall(false), RollbackCall(ok)]
  }

  /** What a terminal state says about the durable record of transaction t. */
  ghost predicate Agreed(w: P.World, s: ChangeState, t: Bytes) {
    && (s == Committed ==> t in w.settled && t !in w.restored)
    && (s == RolledBack ==> t == [] || (t in w.restored && t !in w.committed))
  }

  /** The program's flags and the durable history cannot disagree. */
  lemma FlagsAgree(w: P.World, g: Layout, a: nat, v: OwnerView)
    requires R.Reachable(w) && Sound(w, g, a, v)
    ensures v.committed ==> Agreed(w, Committed, v.transaction)
    ensures v.transaction == [] || v.restored ==> Agreed(w, RolledBack, v.transaction)
  {
    R.ReachableInv(w);
  }

  /** A change may call itself rolled back: it never began, or it is restored with the original durably in the file. */
  ghost predicate Reversed(w: P.World, t: Bytes) {
    t == [] || (W.BackOnDisk(w, t) && t !in w.committed)
  }

  /** In the world found after others had moved, the reversal was possible exactly if it happened. */
  ghost predicate Decided(w0: P.World, a: nat, t: Bytes, reversed: bool) {
    exists found :: M.OthersMoved(w0, found, a) && (reversed <==> t == [] || Reversible(found, t))
  }

  /** The transaction is pending with its candidate durably in place. */
  ghost predicate Installed(w: P.World, t: Bytes, candidate: Bytes) {
    w.PendingOf(t) && w.file == P.Entry(Some(candidate), {Some(candidate)})
  }

  /** Transaction t is pending with exactly the requested profile durably in place, under the DHCPv6 policy found in w0. */
  ghost predicate Requested(g: Layout, w0: P.World, w: P.World, t: Bytes, profile: WifiProfile)
    requires ValidProfile(profile)
  {
    Installed(w, t, Yaml(g, Inherited(g, w0, profile)))
  }

  /** The requested profile is in place, under the policy of the file found after others had moved. */
  ghost predicate Delivered(g: Layout, w0: P.World, w: P.World, a: nat, t: Bytes, profile: WifiProfile)
    requires ValidProfile(profile)
  {
    exists found :: M.OthersMoved(w0, found, a) && Requested(g, found, w, t, profile)
  }

  /** The positive answers behind a preparation of p and an activation of t, in order. */
  function Preparation(p: WifiProfile): seq<Grant> {
    [EthernetUp, Preflighted(p), WatchdogArmed, WatchdogArmed]
  }

  function Activation(t: WifiProfile): seq<Grant> {
    [EthernetUp, Preflighted(t), WatchdogArmed, Applied(t)]
  }

  /** The positive answers behind a commit of t. */
  function Confirmation(t: WifiProfile): seq<Grant> {
    [EthernetUp, Preflighted(t), WatchdogArmed, Connected(t)]
  }

  /** Nothing to connect with: the key or the name is gone. */
  predicate Consumed(p: WifiProfile) {
    |p.psk| != KEY_SIZE || p.ssidHex == []
  }

  class WifiChange {
    const backend: WifiManagedBackend
    var state: ChangeState
    var deadline: int
    var ticket: Bytes
    ghost var calls: seq<Call>

    ghost predicate Valid()
      reads this, backend, backend.machine
    {
      && backend.Valid()
      && Trace(state, calls)
      && (Pending(state) <==> ticket != [])
      && (ticket != [] ==> |ticket| == 64 && IsHex(ticket))
      && (state == Idle ==> !backend.attempted)
      && (Pending(state) ==> backend.prepared && backend.activated && !backend.committed && !backend.restored && backend.target.Some?)
      && (state == Committed ==> backend.committed)
      && (state == RolledBack ==> backend.transaction == [] || backend.restored)
    }

    constructor (backend: WifiManagedBackend)
      requires backend.Valid() && !backend.attempted
      ensures Valid() && this.backend == backend && state == Idle
    {
      this.backend := backend;
      state, deadline, ticket, calls := Idle, 0, [], [];
    }

    /** Whatever others do between two calls, the change stays consistent with the disk. */
    method Wait()
      requires Valid()
      modifies backend.machine`world
      ensures Valid() && M.OthersMoved(old(backend.machine.world), backend.machine.world, backend.actor)
      ensures M.Kept(old(backend.machine.world), backend.machine.world)
    {
      backend.Wait();
    }

    /** revert */
    method Revert()
      requires backend.Valid() && !backend.committed && !backend.restored
      requires Reverted(calls + [RollbackCall(true)], true) && Reverted(calls + [RollbackCall(false)], false)
      modifies this, backend, backend.machine`world, backend.platform`granted
      ensures M.Kept(old(backend.machine.world), backend.machine.world)
      ensures Valid() && (state == RolledBack || state == RecoveryRequired) && ticket == []
      ensures backend.transaction == old(backend.transaction) && deadline == old(deadline)
      ensures state == RolledBack ==> Reversed(backend.machine.world, backend.transaction)
      ensures backend.machine.healthy && backend.platform.willing ==>
        Decided(old(backend.machine.world), backend.actor, backend.transaction, state == RolledBack)
    {
      hide Sound, M.OthersMoved, M.Onward, R.Reachable, M.StrictReader, IsHex, W.BackOnDisk, Reversible;
      backend.Wait();
      var ok := backend.Rollback();
      calls := calls + [RollbackCall(ok)];
      state := if ok then RolledBack else RecoveryRequired;
      ticket := [];
      if ok { FlagsAgree(backend.machine.world, backend.machine.layout, backend.actor, backend.View()); }
    }

    /** The prepared change activates, or reverts. */
    method Engage() returns (ok: bool)
      requires backend.Valid() && backend.prepared && !backend.activated && !backend.committed && !backend.restored
      requires state == Connecting && |ticket| == 64 && IsHex(ticket) && calls == [PrepareCall(true)]
      modifies this, backend, backend.machine`world, backend.platform`granted
      ensures M.Kept(old(backend.machine.world), backend.machine.world)
      ensures Valid() && deadline == old(deadline)
      ensures ok ==> state == Connecting && ticket == old(ticket)
      ensures ok ==> Installed(backend.machine.world, backend.transaction, old(backend.candidate))
      ensures ok ==> backend.target.Some? && backend.platform.granted == old(backend.platform.granted) + Activation(backend.target.value)
      ensures !ok ==> state == RolledBack || state == RecoveryRequired
      ensures state == RolledBack ==> Reversed(backend.machine.world, backend.transaction)
    {
      hide Sound, M.OthersMoved, M.Onward, R.Reachable, Proposed, Agreed, Reversed, IsHex;
      backend.Wait();
      ok := backend.Activate();
      calls := calls + [ActivateCall(ok)];
      if !ok { Revert(); }
    }

    /** The ticket, the deadline and the two backend calls of start. */
    method Launch(profile: WifiProfile, now: int, random: Key) returns (ok: bool)
      requires Valid() && state == Idle
      modifies this, backend, backend.machine`world, backend.platform`granted
      ensures M.Kept(old(backend.machine.world), backend.machine.world)
      ensures Valid()
      ensures ok ==> state == Connecting && deadline == now + LIFETIME && ticket == HexOf(random)
      ensures ok && ValidProfile(profile) ==>
        var b := backend; Delivered(b.machine.layout, old(b.machine.world), b.machine.world, b.actor, b.transaction, profile)
      ensures ok ==> backend.target.Some?
      ensures ok && ValidProfile(profile) ==> var yes := Preparation(profile) + Activation(backend.target.value);
        backend.platform.granted == old(backend.platform.granted) + yes
      ensures !ok ==> state == RolledBack || state == RecoveryRequired
      ensures state == RolledBack ==> Reversed(backend.machine.world, backend.transaction)
    {
      hide Sound, M.OthersMoved, M.Onward, R.Reachable, Proposed, Agreed, Reversed, IsHex;
      hide Yaml, Inherited, ValidProfile;
      ticket := WriteHex(random);
      deadline := now + LIFETIME;
      state := Connecting;
      backend.Wait();
      ghost var found := backend.machine.world;
      ok := backend.Prepare(profile, LIFETIME);
      calls := calls + [PrepareCall(ok)];
      if !ok { Revert(); return; }
      ok := Engage();
      if ok && ValidProfile(profile) {
        assert Requested(backend.machine.layout, found, backend.machine.world, backend.transaction, profile);
      }
    }

    /** start: random is the outcome of the generator, if it works; ethernet is what the platform answered, if asked. */
    method Start(profile: WifiProfile, now: int, random: Option<Key>) returns (ok: bool, ghost ethernet: bool)
      requires Valid()
      modifies this, backend, backend.machine`world, backend.platform`granted
      ensures M.Kept(old(backend.machine.world), backend.machine.world)
      ensures Valid()
      ensures old(state) != Idle || state == Idle ==> !ok && state == old(state) && ticket == old(ticket) && calls == old(calls)
      ensures old(state) != Idle || state == Idle ==> backend.machine.world == old(backend.machine.world)
      ensures ok ==> state == Connecting && deadline == now + LIFETIME && random.Some? && ticket == HexOf(random.value)
      ensures ok && ValidProfile(profile) ==>
        var b := backend; Delivered(b.machine.layout, old(b.machine.world), b.machine.world, b.actor, b.transaction, profile)
      ensures ok ==> backend.target.Some?
      ensures ok && ValidProfile(profile) ==> var yes := [EthernetUp] + (Preparation(profile) + Activation(backend.target.value));
        backend.platform.granted == old(backend.platform.granted) + yes
      ensures old(state) == Idle ==> (state == Idle <==> random.None? || Consumed(profile) || !ethernet)
      ensures state == Idle && !Consumed(profile) ==>
        backend.platform.granted == old(backend.platform.granted) + (if ethernet then [EthernetUp] else [])
      ensures backend.platform.willing && old(state) == Idle && !Consumed(profile) ==> ethernet
      ensures !ok && old(state) == Idle ==> state == Idle || state == RolledBack || state == RecoveryRequired
      ensures state == RolledBack && old(state) == Idle ==> Reversed(backend.machine.world, backend.transaction)
    {
      hide Sound, R.Reachable, M.StrictReader, Requested, Delivered, Agreed, Reversed, IsHex, ValidProfile, Preparation, Activation;
      if state != Idle { return false, false; }
      if |profile.psk| != KEY_SIZE || profile.ssidHex == [] { return false, false; }
      ok := backend.platform.EthernetReady();
      ethernet := ok;
      if !ok || random.None? { return false, ethernet; }
      ok := Launch(profile, now, random.value);
    }

    /** tick */
    method Tick(now: int)
      requires Valid()
      modifies this, backend, backend.machine`world, backend.platform`granted
      ensures M.Kept(old(backend.machine.world), backend.machine.world)
      ensures Valid() && backend.transaction == old(backend.transaction) && deadline == old(deadline)
      ensures !Pending(old(state)) ==> state == old(state) && ticket == old(ticket) && calls == old(calls)
      ensures !Pending(old(state)) ==> backend.machine.world == old(backend.machine.world)
      ensures Pending(old(state)) ==> Pending(state) || state == RolledBack || state == RecoveryRequired
      ensures Pending(state) ==> ticket == old(ticket) && now < deadline
      ensures Pending(old(state)) && now >= deadline ==> !Pending(state)
      ensures Pending(state) ==> backend.target == old(backend.target)
      ensures Pending(state) ==> var ready := if state == AwaitingConfirmation then [Connected(backend.target.value)] else [];
        backend.platform.granted == old(backend.platform.granted) + ([EthernetUp, WatchdogArmed] + ready)
      ensures Pending(old(state)) && now < deadline && backend.platform.willing ==> state == AwaitingConfirmation
      ensures state == RolledBack && Pending(old(state)) ==> Reversed(backend.machine.world, backend.transaction)
    {
      hide Sound, R.Reachable, M.StrictReader, IsHex, Agreed, Reversed;
      if !Pending(state) { return; }
      if now >= deadline { Revert(); return; }
      var ethernet := backend.platform.EthernetReady();
      if !ethernet { Revert(); return; }
      var link := backend.Probe();
      if link == LinkFailed { Revert(); return; }
      state := if link == LinkReady then AwaitingConfirmation else Connecting;
    }

    /** The commit of a change that awaits it, or the reversal. */
    method Conclude() returns (ok: bool)
      requires Valid() && state == AwaitingConfirmation
      modifies this, backend, backend.machine`world, backend.platform`granted
      ensures M.Kept(old(backend.machine.world), backend.machine.world)
      ensures Valid() && backend.transaction == old(backend.transaction) && !Pending(state) && state != Idle
      ensures ok <==> state == Committed
      ensures ok ==> W.Settled(backend.machine.world, backend.transaction) && old(backend.target).Some?
      ensures ok ==> backend.platform.granted == old(backend.platform.granted) + Confirmation(old(backend.target).value)
      ensures ok ==> Agreed(backend.machine.world, Committed, backend.transaction)
      ensures state == RolledBack ==> Reversed(backend.machine.world, backend.transaction)
    {
      hide Sound, M.OthersMoved, M.Onward, R.Reachable, M.StrictReader, IsHex, Agreed, Reversed, W.Settled;
      backend.Wait();
      ok := backend.Commit();
      calls := calls + [CommitCall(ok)];
      if !ok { Revert(); return; }
      state := Committed;
      ticket := [];
      FlagsAgree(backend.machine.world, backend.machine.layout, backend.actor, backend.View());
    }

    /** confirm: the only way to Committed, and only with the ticket, in time, and durably. */
    method Confirm(offered: Bytes, now: int) returns (ok: bool)
      requires Valid()
      modifies this, backend, backend.machine`world, backend.platform`granted
      ensures M.Kept(old(backend.machine.world), backend.machine.world)
      ensures Valid() && backend.transaction == old(backend.transaction)
      ensures ok ==> Pending(old(state)) && state == Committed && offered == old(ticket) && now < old(deadline)
      ensures ok ==> W.Settled(backend.machine.world, backend.transaction) && old(backend.target).Some?
      ensures ok ==> var t := old(backend.target).value;
        backend.platform.granted == old(backend.platform.granted) + ([EthernetUp, WatchdogArmed, Connected(t)] + Confirmation(t))
      ensures state == AwaitingConfirmation ==> offered != ticket
      ensures ok ==> Agreed(backend.machine.world, Committed, backend.transaction)
      ensures !ok ==> (state == Committed <==> old(state) == Committed)
      ensures Pending(old(state)) ==> state != Idle
      ensures !Pending(old(state)) ==> !ok && state == old(state) && ticket == old(ticket) && calls == old(calls)
      ensures !Pending(old(state)) ==> backend.machine.world == old(backend.machine.world)
      ensures state == RolledBack && Pending(old(state)) ==> Reversed(backend.machine.world, backend.transaction)
      ensures Pending(state) ==> ticket == old(ticket)
    {
      hide Sound, R.Reachable, M.StrictReader, W.Settled, IsHex, Agreed, Reversed;
      Tick(now);
      if state != AwaitingConfirmation || offered != ticket { return false; }
      ok := Conclude();
    }

    /** cancel, and what the destructor does to a change that is still pending. */
    method Cancel()
      requires Valid()
      modifies this, backend, backend.machine`world, backend.platform`granted
      ensures M.Kept(old(backend.machine.world), backend.machine.world)
      ensures Valid() && !Pending(state) && backend.transaction == old(backend.transaction)
      ensures !Pending(old(state)) ==> state == old(state) && ticket == old(ticket) && calls == old(calls)
      ensures Pending(old(state)) ==> state == RolledBack || state == RecoveryRequired
      ensures state == RolledBack && Pending(old(state)) ==> Reversed(backend.machine.world, backend.transaction)
      ensures Pending(old(state)) && backend.machine.healthy && backend.platform.willing ==>
        Decided(old(backend.machine.world), backend.actor, backend.transaction, state == RolledBack)
    {
      hide Decided;
      if Pending(state) { Revert(); }
    }
  }
}
