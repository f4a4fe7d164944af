/** A session keeps its ticket beyond the end of its change: common/src/wifi_session.cpp. */
module Session {
  import opened Octets
  import opened Profile
  import P = Protocol
  import R = Runs
  import M = Machine
  import opened ManagedBackend
  import opened Change
  import W = RecoveryWorker

  predicate Over(s: ChangeState) {
    s == Committed || s == RolledBack
  }

  class WifiSession {
    const change: WifiChange
    var ticket: Bytes

    ghost predicate Valid()
      reads this, change, change.backend, change.backend.machine
    {
      && change.Valid()
      && (ticket != [] ==> |ticket| == 64 && IsHex(ticket) && change.state != Idle)
      && (Pending(change.state) ==> ticket == change.ticket)
    }

    constructor (backend: WifiManagedBackend)
      requires backend.Valid() && !backend.attempted
      ensures Valid() && ticket == [] && change.state == Idle && change.backend == backend && fresh(change)
    {
      change := new WifiChange(backend);
      ticket := [];
    }

    /** What the durable history says about the session's transaction. */
    ghost predicate Truthful()
      reads this, change, change.backend, change.backend.machine
    {
      Agreed(change.backend.machine.world, change.state, change.backend.transaction)
    }

    lemma Agrees()
      requires Valid()
      ensures Truthful()
    {
      var b := change.backend;
      FlagsAgree(b.machine.world, b.machine.layout, b.actor, b.View());
    }

    method Wait()
      requires Valid()
      modifies change.backend.machine`world
      ensures Valid() && M.OthersMoved(old(change.backend.machine.world), change.backend.machine.world, change.backend.actor)
      ensures M.Kept(old(change.backend.machine.world), change.backend.machine.world)
    {
      hide Sound, R.Reachable, M.StrictReader, M.OthersMoved, IsHex;
      change.Wait();
    }

    /** authorized */
    predicate Authorized(offered: Bytes)
      reads this
    {
      |ticket| == 64 && offered == ticket
    }

    /** start: the ticket is handed out once and kept. */
    method Start(profile: WifiProfile, now: int, random: Option<Key>) returns (ok: bool, outgoing: Bytes, ghost ethernet: bool)
      requires Valid()
      modifies this, change, change.backend, change.backend.machine`world, change.backend.platform`granted
      ensures M.Kept(old(change.backend.machine.world), change.backend.machine.world)
      ensures Valid()
      ensures ok ==> old(change.state) == Idle && change.state == Connecting && random.Some?
      ensures ok ==> outgoing == ticket == HexOf(random.value) && |outgoing| == 64
      ensures ok && ValidProfile(profile) ==> var b := change.backend;
        Delivered(b.machine.layout, old(b.machine.world), b.machine.world, b.actor, b.transaction, profile)
      ensures !ok ==> ticket == old(ticket)
      ensures !ok && old(change.state) == Idle ==> change.state in {Idle, RolledBack, RecoveryRequired}
      ensures old(change.state) != Idle ==> !ok && change.state == old(change.state) && change.calls == old(change.calls)
      ensures old(change.state) != Idle ==> change.backend.machine.world == old(change.backend.machine.world)
      ensures old(change.state) == Idle ==> (change.state == Idle <==> random.None? || Consumed(profile) || !ethernet)
      ensures change.backend.platform.willing && old(change.state) == Idle && !Consumed(profile) ==> ethernet
      ensures change.state == Idle ==> change.backend.machine.world == old(change.backend.machine.world)
      ensures change.state == RolledBack && old(change.state) == Idle ==> Reversed(change.backend.machine.world, change.backend.transaction)
    {
      hide Sound, R.Reachable, M.StrictReader, M.OthersMoved, IsHex, Delivered, Agreed, Reversed, P.IsPending, ValidProfile, Consumed;
      ok, outgoing, ethernet := false, [], false;
      if change.state != Idle || ticket != [] { return; }
      ok, ethernet := change.Start(profile, now, random);
      if !ok { return; }
      ticket := change.ticket;
      outgoing := change.ticket;
    }

    /** status */
    method Status(offered: Bytes, now: int) returns (ok: bool, state: ChangeState)
      requires Valid()
      modifies change, change.backend, change.backend.machine`world, change.backend.platform`granted
      ensures M.Kept(old(change.backend.machine.world), change.backend.machine.world)
      ensures Valid() && change.backend.transaction == old(change.backend.transaction)
      ensures change.state == RolledBack && Pending(old(change.state)) ==> Reversed(change.backend.machine.world, change.backend.transaction)
      ensures ok <==> Authorized(offered)
      ensures ok ==> state == change.state && state != Idle && Truthful()
      ensures ok && Pending(state) ==> now < change.deadline
      ensures change.state == Committed <==> old(change.state) == Committed
      ensures !ok || !Pending(old(change.state)) ==> change.state == old(change.state) && change.calls == old(change.calls)
    {
      hide Sound, R.Reachable, M.StrictReader, M.OthersMoved, IsHex, Agreed, Reversed;
      if !Authorized(offered) { return false, Idle; }
      change.Tick(now);
      ok, state := true, change.state;
      Agrees();
    }

    /** confirm: repeating a confirmation that succeeded succeeds again, without touching anything. */
    method Confirm(offered: Bytes, now: int) returns (ok: bool, state: ChangeState)
      requires Valid()
      modifies change, change.backend, change.backend.machine`world, change.backend.platform`granted
      ensures M.Kept(old(change.backend.machine.world), change.backend.machine.world)
      ensures Valid() && change.backend.transaction == old(change.backend.transaction)
      ensures change.state == RolledBack && Pending(old(change.state)) ==> Reversed(change.backend.machine.world, change.backend.transaction)
      ensures ok ==> Authorized(offered) && state == change.state == Committed && Truthful()
      ensures ok && old(change.state) != Committed ==> W.Settled(change.backend.machine.world, change.backend.transaction)
      ensures old(change.state) == Committed && Authorized(offered) ==> ok
      ensures !ok ==> (change.state == Committed <==> old(change.state) == Committed)
      ensures !Authorized(offered) || !Pending(old(change.state)) ==>
        change.state == old(change.state) && change.calls == old(change.calls) &&
        change.backend.machine.world == old(change.backend.machine.world)
    {
      hide Sound, R.Reachable, M.StrictReader, M.OthersMoved, IsHex, Agreed, Reversed, W.Settled;
      if !Authorized(offered) { return false, Idle; }
      if change.state == Committed {
        Agrees();
        return true, Committed;
      }
      ok := change.Confirm(offered, now);
      state := change.state;
    }

    /** cancel: a change that is over stays as it ended. */
    method Cancel(offered: Bytes) returns (ok: bool, state: ChangeState)
      requires Valid()
      modifies change, change.backend, change.backend.machine`world, change.backend.platform`granted
      ensures M.Kept(old(change.backend.machine.world), change.backend.machine.world)
      ensures Valid() && change.backend.transaction == old(change.backend.transaction)
      ensures change.state == RolledBack && Pending(old(change.state)) ==> Reversed(change.backend.machine.world, change.backend.transaction)
      ensures ok <==> Authorized(offered)
      ensures change.state == Committed <==> old(change.state) == Committed
      ensures ok ==> state == change.state && state != Idle && !Pending(state) && Truthful()
      ensures !ok || !Pending(old(change.state)) ==> change.state == old(change.state) && change.calls == old(change.calls)
    {
      hide Sound, R.Reachable, M.StrictReader, M.OthersMoved, IsHex, Agreed, Reversed;
      if !Authorized(offered) { return false, Idle; }
      change.Cancel();
      ok, state := true, change.state;
      Agrees();
    }

    /** tick */
    method Tick(now: int)
      requires Valid()
      modifies change, change.backend, change.backend.machine`world, change.backend.platform`granted
      ensures M.Kept(old(change.backend.machine.world), change.backend.machine.world)
      ensures Valid() && change.backend.transaction == old(change.backend.transaction)
      ensures change.state == RolledBack && Pending(old(change.state)) ==> Reversed(change.backend.machine.world, change.backend.transaction)
      ensures Pending(change.state) ==> Pending(old(change.state)) && now < change.deadline
      ensures !Pending(old(change.state)) ==> change.state == old(change.state) && change.calls == old(change.calls)
    {
      hide Sound, R.Reachable, M.StrictReader, M.OthersMoved, IsHex, Agreed, Reversed;
      change.Tick(now);
    }

    predicate Finished()
      reads this, change
    {
      Over(change.state)
    }
  }
}
