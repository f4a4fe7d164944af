/** The helper's request handler (common/src/wifi_rpc.cpp) and the loop that drives it (server/src/wifi_change_helper.cpp). */
module Rpc {
  import opened Octets
  import opened Profile
  import opened Packets
  import P = Protocol
  import R = Runs
  import M = Machine
  import opened Platform
  import opened ManagedBackend
  import opened Change
  import opened Session
  import W = RecoveryWorker

  /** What the handler decides; Render gives the text. */
  datatype Reply = Error | Rejected | Opened(ticket: Bytes) | InState(state: ChangeState)

  function StateName(s: ChangeState): Bytes {
    match s
    case Connecting => Ascii("connecting")
    case AwaitingConfirmation => Ascii("ready")
    case Committed => Ascii("committed")
    case RolledBack => Ascii("rolled_back")
    case RecoveryRequired => Ascii("recovery_required")
    case Idle => Ascii("rejected")
  }

  function Render(r: Reply): (text: Bytes) {
    match r
    case Error => Ascii("error")
    case Rejected => Ascii("rejected")
    case Opened(t) => Ascii("connecting|") + t
    case InState(s) => StateName(s)
  }

  /** The replies the handler gives. */
  predicate Given(r: Reply) {
    (r.Opened? ==> |r.ticket| == 64) && r != InState(Idle)
  }

  lemma TextLength(r: Reply)
    requires Given(r)
    ensures var n := |Render(r)|;
      match r
      case Error => n == 5 && Render(r)[0] == 101
      case Rejected => n == 8
      case Opened(_) => n == 75
      case InState(Connecting) => n == 10
      case InState(AwaitingConfirmation) => n == 5 && Render(r)[0] == 114
      case InState(Committed) => n == 9
      case InState(RolledBack) => n == 11
      case InState(RecoveryRequired) => n == 17
  {}

  /** A caller can tell from the text what was decided. */
  lemma RenderInjective(a: Reply, b: Reply)
    requires Given(a) && Given(b) && Render(a) == Render(b)
    ensures a == b
  {
    TextLength(a);
    TextLength(b);
    if a.Opened? {
      assert a.ticket == Render(a)[11..] && b.ticket == Render(b)[11..];
    }
  }

  /** A final answer about a transaction, as it was given. */
  datatype Told = Told(state: ChangeState, transaction: Bytes)

  /** The durable history bears the answer out. */
  ghost predicate Borne(w: P.World, told: Told) {
    && (told.state == Committed ==> told.transaction in w.settled)
    && (told.state == RolledBack ==> told.transaction == [] || told.transaction in w.restored)
  }

  /** A reply that says how a transaction ended. */
  predicate Final(reply: Option<Reply>) {
    reply.Some? && reply.value.InState? && Over(reply.value.state)
  }

  /** The reply has its own entry among those made since the first n. */
  ghost predicate Recorded(told: seq<Told>, n: nat, entry: nat, reply: Reply) {
    reply.InState? && n <= entry < |told| && told[entry].state == reply.state
  }

  /** A session that has been replaced. */
  datatype Past = Past(ticket: Bytes, state: ChangeState, calls: seq<Call>)

  /** A request of two fields. */
  ghost predicate Asks(packet: Bytes, verb: Bytes, ticket: Bytes) {
    Separate([verb, ticket]) && packet == Join([verb, ticket])
  }

  /** One turn of the helper's loop: the clock, the generator, and perhaps a packet. */
  datatype Turn = Turn(packet: Option<Bytes>, now: int, random: Option<Key>)

  /** No transaction is ever reported both committed and rolled back. */
  lemma NeverBoth(rpc: WifiRpc, i: nat, j: nat)
    requires rpc.Valid() && i < |rpc.told| && j < |rpc.told|
    requires rpc.told[i].state == Committed && rpc.told[j].state == RolledBack && rpc.told[j].transaction != []
    ensures rpc.told[i].transaction != rpc.told[j].transaction
  {
    var w := rpc.machine.world;
    R.ReachableInv(w);
    assert Borne(w, rpc.told[i]) && Borne(w, rpc.told[j]);
  }

  class WifiRpc {
    const machine: M.Machine
    const platform: WifiPlatform
    var session: WifiSession?
    ghost var issued: seq<Bytes>  // every ticket handed out, oldest first
    ghost var past: seq<Past>
    ghost var told: seq<Told>

    ghost function Repr(): set<object>
      reads this
    {
      if session == null then {} else {session, session.change, session.change.backend}
    }

    ghost predicate Current(s: WifiSession)
      reads this, s, s.change, s.change.backend, s.change.backend.machine
    {
      && s.Valid() && s.change.backend.platform == platform
      && (s.ticket != [] ==> issued != [] && issued[|issued| - 1] == s.ticket)
    }

    ghost predicate Honest()
      reads this, machine
    {
      && (forall i :: 0 <= i < |told| ==> Borne(machine.world, told[i]))
      && (forall i :: 0 <= i < |past| ==> Over(past[i].state) && Trace(past[i].state, past[i].calls))
    }

    ghost predicate Valid()
      reads this, Repr(), machine
    {
      && machine.Valid()
      && (session != null ==> session.change.backend.machine == machine && Current(session))
      && Honest()
    }

    constructor (machine: M.Machine, platform: WifiPlatform)
      requires machine.Valid()
      ensures Valid() && this.machine == machine && this.platform == platform
      ensures session == null && issued == [] && past == [] && told == []
    {
      this.machine, this.platform, this.session := machine, platform, null;
      issued, past, told := [], [], [];
    }

    /** Nothing can be opened while a session is unfinished. */
    predicate Busy()
      reads this, Repr()
    {
      session != null && !session.Finished()
    }

    /**
      * The session will never end: it was refused before it began, or it ended needing recovery.
      * After a tick at or past the deadline these are the only sessions that keep the handler busy.
      */
    ghost predicate Blocked()
      reads this, Repr()
    {
      session != null && (session.change.state == Idle || session.change.state == RecoveryRequired)
    }

    /** The current session was given this ticket. */
    ghost predicate Holds(ticket: Bytes)
      reads this, Repr()
    {
      session != null && ticket != [] && session.ticket == ticket
    }

    /** The transaction of the current session. */
    ghost function Transaction(): Bytes
      reads this, Repr()
    {
      if session == null then [] else session.change.backend.transaction
    }

    /** The factory: a new owner that has done nothing yet, or none at all. */
    method Factory() returns (backend: WifiManagedBackend?)
      requires machine.Valid()
      ensures backend != null ==> fresh(backend) && backend.Valid() && !backend.attempted
      ensures backend != null ==> backend.machine == machine && backend.platform == platform
    {
      var actor: nat := *;
      if machine.world.lock == Some(actor) || actor in machine.world.drawn.Values { return null; }
      backend := new WifiManagedBackend(machine, platform, actor);
    }

    /** What others do between two requests. */
    method Wait()
      requires Valid()
      modifies machine`world
      ensures Valid() && M.Kept(old(machine.world), machine.world)
    {
      hide P.Inv, R.Reachable, Sound, M.StrictReader, Trace, IsHex;
      if session == null {
        var bystander: nat := *;
        machine.Interfere(bystander);
      } else {
        session.Wait();
      }
    }

    /** tick */
    method Tick(now: int)
      requires Valid()
      modifies Repr(), machine`world, platform`granted
      ensures Valid() && M.Kept(old(machine.world), machine.world)
      ensures session != null && Pending(session.change.state) ==> now < session.change.deadline
      ensures session != null ==> session.ticket == old(session.ticket)
      ensures session != null && !Pending(old(session.change.state)) ==> session.change.state == old(session.change.state)
      ensures session != null && session.change.state == RolledBack && Pending(old(session.change.state)) ==>
        Reversed(machine.world, Transaction())
      ensures session != null && now >= session.change.deadline ==> (Busy() <==> Blocked())
      ensures old(Blocked()) ==> Blocked()
    {
      hide R.Reachable, Sound, M.StrictReader, Trace, IsHex, Reversed;
      if session != null { session.Tick(now); }
    }

    /** The fields of a start request from which a profile can be made. */
    ghost predicate Acceptable(digits: Bytes, key: Bytes) {
      && 2 <= |digits| <= 64 && |digits| % 2 == 0 && IsHex(digits) && |key| == 64 && IsHex(key)
      && Made(FromHex(digits), key, machine.derive).Some?
    }

    /** What would be remembered of the present session. */
    ghost function Retired(): seq<Past>
      reads this, Repr()
    {
      if session == null then [] else [Past(session.ticket, session.change.state, session.change.calls)]
    }

    /** The fields of a start request, decoded. */
    method Decode(digits: Bytes, key: Bytes) returns (profile: Option<WifiProfile>)
      ensures profile.Some? <==> Acceptable(digits, key)
      ensures profile.Some? ==> profile == Made(FromHex(digits), key, machine.derive) && ValidProfile(profile.value)
    {
      hide Made, ValidProfile;
      var plausible := IsHexField(digits, 2, 64);
      if plausible { plausible := IsHexField(key, 64, 64); }
      if !plausible { return None; }
      var ssid := ReadHex(digits);
      profile := Make(ssid, key, machine.derive);
    }

    lemma NotConsumed(p: WifiProfile)
      requires ValidProfile(p)
      ensures !Consumed(p)
    {}

    /** The current session's transaction put exactly this profile in the file. */
    ghost predicate Installs(w0: P.World, profile: WifiProfile)
      requires ValidProfile(profile)
      reads this, Repr(), machine
    {
      session != null && Delivered(machine.layout, w0, machine.world, session.change.backend.actor, Transaction(), profile)
    }

    /** A new session for the profile, once the old one is gone. */
    method Replace(profile: WifiProfile, now: int, random: Option<Key>) returns (reply: Reply, ghost ethernet: bool)
      requires Valid() && session == null && ValidProfile(profile)
      modifies this, machine`world, platform`granted
      ensures Valid() && fresh(Repr()) && M.Kept(old(machine.world), machine.world) && Given(reply)
      ensures past == old(past) && told == old(told)
      ensures reply == Rejected || reply == InState(RecoveryRequired) || reply.Opened?
      ensures (reply == Rejected <==> session == null) && (session == null || fresh(session))
      ensures reply == InState(RecoveryRequired) ==> session.ticket == []
      ensures reply == InState(RecoveryRequired) <==> session != null && session.change.state in {Idle, RolledBack, RecoveryRequired}
      ensures if reply.Opened? then issued == old(issued) + [reply.ticket] else issued == old(issued)
      ensures reply.Opened? <==> session != null && session.ticket != []
      ensures reply.Opened? ==> session.ticket == reply.ticket && session.change.state == Connecting
      ensures reply.Opened? ==> random.Some? && reply.ticket == HexOf(random.value) && |reply.ticket| == 64
      ensures reply.Opened? ==> Installs(old(machine.world), profile)
      ensures session != null ==> (session.change.state == Idle <==> random.None? || !ethernet)
      ensures session != null && platform.willing ==> ethernet
    {
      hide R.Reachable, Sound, M.StrictReader, Trace, IsHex, Delivered, Reversed, ValidProfile;
      ethernet := false;
      var backend := Factory();
      if backend == null { return Rejected, false; }
      session := new WifiSession(backend);
      NotConsumed(profile);
      var ok, ticket;
      ok, ticket, ethernet := session.Start(profile, now, random);
      if !ok { return InState(RecoveryRequired), ethernet; }
      issued := issued + [ticket];
      reply := Opened(ticket);
    }

    /** A request of three fields whose first is "start". */
    method Open(digits: Bytes, key: Bytes, now: int, random: Option<Key>) returns (reply: Reply, ghost ethernet: bool)
      requires Valid()
      modifies this, machine`world, platform`granted
      ensures Valid() && fresh(Repr() - old(Repr())) && M.Kept(old(machine.world), machine.world) && Given(reply)
      ensures told == old(told)
      ensures reply == Rejected || reply == InState(RecoveryRequired) || reply.Opened?
      ensures if reply.Opened? then issued == old(issued) + [reply.ticket] else issued == old(issued)
      ensures old(Busy()) || !Acceptable(digits, key) ==> reply == Rejected && session == old(session) && past == old(past)
      ensures old(Busy()) || !Acceptable(digits, key) ==> machine.world == old(machine.world)
      ensures !old(Busy()) && Acceptable(digits, key) ==> past == old(past) + old(Retired()) && (session == null || fresh(session))
      ensures !old(Busy()) && Acceptable(digits, key) ==> (reply == Rejected <==> session == null)
      ensures reply == InState(RecoveryRequired) ==> session.ticket == [] && session.change.state in {Idle, RolledBack, RecoveryRequired}
      ensures reply.Opened? ==> fresh(session) && session.ticket == reply.ticket && session.change.state == Connecting
      ensures reply.Opened? ==> random.Some? && reply.ticket == HexOf(random.value)
      ensures reply.Opened? ==> Acceptable(digits, key)
      ensures reply.Opened? ==> var p := Made(FromHex(digits), key, machine.derive);
        p.Some? && ValidProfile(p.value) && Installs(old(machine.world), p.value)
      ensures !old(Busy()) && Acceptable(digits, key) && session != null ==>
        (session.change.state == Idle <==> random.None? || !ethernet) && (platform.willing ==> ethernet)
    {
      hide R.Reachable, Sound, M.StrictReader, IsHex, Delivered, ValidProfile, Made;
      ethernet := false;
      if session != null && !session.Finished() { return Rejected, false; }
      var profile := Decode(digits, key);
      if profile.None? { return Rejected, false; }
      if session != null {
        past := past + [Past(session.ticket, session.change.state, session.change.calls)];
      }
      session := null;
      reply, ethernet := Replace(profile.value, now, random);
    }

    /** The three verbs of a query, put to the session. */
    method Ask(verb: Bytes, ticket: Bytes, now: int) returns (ok: bool, state: ChangeState)
      requires Valid() && session != null
      modifies session.change, session.change.backend, machine`world, platform`granted
      ensures Valid() && M.Kept(old(machine.world), machine.world)
      ensures ok ==> session.ticket == ticket != [] && state == session.change.state != Idle
      ensures ok ==> Agreed(machine.world, state, session.change.backend.transaction)
      ensures ok && state == RolledBack && Pending(old(session.change.state)) ==> Reversed(machine.world, Transaction())
      ensures ok && state == Committed && old(session.change.state) != Committed ==>
        verb == CONFIRM && W.Settled(machine.world, session.change.backend.transaction)
      ensures verb != CONFIRM && (!ok || !Pending(old(session.change.state))) ==> session.change.state == old(session.change.state)
      ensures session.ticket != [] && ticket == session.ticket && verb in {STATUS, CANCEL} ==> ok
      ensures session.ticket == ticket != [] && old(session.change.state) == Committed && verb == CONFIRM ==> ok && state == Committed
      ensures !Pending(old(session.change.state)) ==> session.change.state == old(session.change.state)
    {
      hide R.Reachable, Sound, M.StrictReader, Trace, W.Settled, IsHex, Agreed, Reversed;
      ok, state := false, Idle;
      if verb == STATUS { ok, state := session.Status(ticket, now); }
      else if verb == CONFIRM { ok, state := session.Confirm(ticket, now); }
      else if verb == CANCEL { ok, state := session.Cancel(ticket); }
    }

    /** A request of two fields: only the current ticket gets anything but an error. */
    method Query(verb: Bytes, ticket: Bytes, now: int) returns (reply: Reply)
      requires Valid()
      modifies Repr(), this`told, machine`world, platform`granted
      ensures Valid() && M.Kept(old(machine.world), machine.world) && Given(reply)
      ensures reply == Error || (reply.InState? && session != null && session.ticket == ticket && ticket != [])
      ensures reply.InState? ==> reply.state == session.change.state
      ensures session != null ==> session.ticket == old(session.ticket)
      ensures reply == InState(RolledBack) && Pending(old(session.change.state)) ==> Reversed(machine.world, Transaction())
      ensures told == old(told) + (if reply.InState? && Over(reply.state) then [Told(reply.state, Transaction())] else [])
      ensures reply == InState(Committed) && old(session.change.state) != Committed ==>
        verb == CONFIRM && W.Settled(machine.world, session.change.backend.transaction)
      ensures session != null && !Pending(old(session.change.state)) ==> session.change.state == old(session.change.state)
      ensures session != null && session.ticket == ticket != [] && verb in {STATUS, CANCEL} ==> reply.InState?
      ensures session != null && session.ticket == ticket != [] && verb == CONFIRM && old(session.change.state) == Committed ==>
        reply == InState(Committed)
    {
      hide R.Reachable, Sound, M.StrictReader, Trace, W.Settled, IsHex, Reversed;
      var wellFormed := IsHexField(ticket, 64, 64);
      if !wellFormed || session == null { return Error; }
      var ok, state := Ask(verb, ticket, now);
      if ok && Over(state) { told := told + [Told(state, session.change.backend.transaction)]; }
      reply := if ok then InState(state) else Error;
    }

    /** The fields of a packet, or none if it is refused unread. */
    method Read(packet: Bytes) returns (fields: seq<Bytes>)
      ensures Refused(packet) <==> fields == []
      ensures fields != [] ==> Separate(fields) && Join(fields) == packet
      ensures forall others :: !Refused(packet) && Separate(others) && Join(others) == packet ==> others == fields
    {
      if |packet| > MAX_PACKET || 0 in packet { return []; }
      fields := Split(packet);
    }

    /** A start packet: what the administration client printed is what gets installed. */
    method OpenPacket(packet: Bytes, fields: seq<Bytes>, now: int, random: Option<Key>) returns (reply: Reply)
      requires Valid() && |fields| == 3 && fields[0] == START && Separate(fields) && Join(fields) == packet
      modifies this, machine`world, platform`granted
      ensures Valid() && fresh(Repr() - old(Repr())) && M.Kept(old(machine.world), machine.world) && Given(reply)
      ensures told == old(told) && (reply == Rejected || reply == InState(RecoveryRequired) || reply.Opened?)
      ensures old(Busy()) ==> reply == Rejected && session == old(session) && machine.world == old(machine.world)
      ensures reply.Opened? ==> fresh(session) && issued == old(issued) + [reply.ticket]
      ensures reply == InState(RecoveryRequired) ==> session != null
      ensures forall p :: ValidProfile(p) && packet == StartPacket(p) && reply.Opened? ==> Installs(old(machine.world), p.WithDhcp6(None))
    {
      hide R.Reachable, Sound, M.StrictReader, Trace, IsHex, Delivered, Made, Join, Separate;
      ghost var ethernet;
      reply, ethernet := Open(fields[1], fields[2], now, random);
      forall p | ValidProfile(p) && packet == StartPacket(p) && reply.Opened?
        ensures Installs(old(machine.world), p.WithDhcp6(None)) {
        StartPacketMeaning(p, fields, machine.derive);
      }
    }

    /** handle */
    method Handle(packet: Bytes, now: int, random: Option<Key>) returns (reply: Reply)
      requires Valid()
      modifies this, Repr(), machine`world, platform`granted
      ensures Valid() && fresh(Repr() - old(Repr())) && M.Kept(old(machine.world), machine.world) && Given(reply)
      ensures Refused(packet) ==> reply == Error && session == old(session) && machine.world == old(machine.world)
      ensures old(Busy()) ==> session == old(session) && !reply.Opened?
      ensures reply.Opened? ==> fresh(session) && issued == old(issued) + [reply.ticket]
      ensures forall p :: ValidProfile(p) && packet == StartPacket(p) && reply.Opened? ==> Installs(old(machine.world), p.WithDhcp6(None))
      ensures forall verb, ticket :: Asks(packet, verb, ticket) && !old(Holds(ticket)) ==> reply == Error
      ensures old(Blocked()) ==> Blocked() && reply in {Error, Rejected, InState(RecoveryRequired)}
      ensures told == old(told) + (if reply.InState? && Over(reply.state) then [Told(reply.state, Transaction())] else [])
    {
      hide R.Reachable, Sound, M.StrictReader, Trace, IsHex, Delivered, Made, Join, Separate, Refused, Reversed;
      var fields := Read(packet);
      if fields == [] { return Error; }
      if |fields| == 3 && fields[0] == START {
        reply := OpenPacket(packet, fields, now, random);
        return;
      }
      if |fields| != 2 { return Error; }
      reply := Query(fields[0], fields[1], now);
    }

    /** The periodic tick, with everything others do around it. */
    method Pulse(now: int)
      requires Valid()
      modifies Repr(), machine`world, platform`granted
      ensures Valid() && M.Kept(old(machine.world), machine.world) && (old(Blocked()) ==> Blocked())
    {
      hide R.Reachable, Sound, M.StrictReader, Trace, IsHex;
      Wait();
      Tick(now);
      Wait();
    }

    /** One turn, with everything others do meanwhile. */
    method Take(turn: Turn) returns (reply: Option<Reply>)
      requires Valid()
      modifies this, Repr(), machine`world, platform`granted
      ensures Valid() && fresh(Repr() - old(Repr())) && M.Kept(old(machine.world), machine.world)
      ensures reply.Some? ==> Given(reply.value)
      ensures told == old(told) + (if Final(reply) then [Told(reply.value.state, Transaction())] else [])
      ensures old(Blocked()) ==> Blocked() && reply in {None, Some(Error), Some(Rejected), Some(InState(RecoveryRequired))}
    {
      hide R.Reachable, Sound, M.StrictReader, Trace, IsHex, Delivered, Asks, Refused, ValidProfile, StartPacket, Given, Reversed;
      Pulse(turn.now);
      reply := None;
      if turn.packet.Some? {
        var given := Handle(turn.packet.value, turn.now, turn.random);
        reply := Some(given);
      }
    }

    /** The helper's loop: whatever the packets, every final answer it gives is on record and true for good. */
    method Serve(turns: seq<Turn>) returns (replies: seq<Reply>, ghost entries: seq<nat>)
      requires Valid()
      modifies this, Repr(), machine`world, platform`granted
      ensures Valid() && fresh(Repr() - old(Repr())) && old(told) <= told && |entries| == |replies|
      ensures forall i :: 0 <= i < |replies| ==> Given(replies[i])
      ensures forall i :: 0 <= i < |replies| && Final(Some(replies[i])) ==>
        Recorded(told, |old(told)|, entries[i], replies[i]) && Borne(machine.world, told[entries[i]])
      ensures forall i, j :: 0 <= i < j < |replies| && Final(Some(replies[i])) && Final(Some(replies[j])) ==> entries[i] < entries[j]
      ensures old(Blocked()) ==> Blocked() && forall i :: 0 <= i < |replies| ==> replies[i] in {Error, Rejected, InState(RecoveryRequired)}
    {
      hide R.Reachable, Sound, M.StrictReader, Trace, IsHex, Given, Blocked, M.Kept, Borne, Current;
      replies, entries := [], [];
      for n := 0 to |turns|
        invariant Valid() && fresh(Repr() - old(Repr())) && old(told) <= told && |entries| == |replies|
        invariant forall i :: 0 <= i < |replies| ==> Given(replies[i])
        invariant forall i :: 0 <= i < |replies| && Final(Some(replies[i])) ==> Recorded(told, |old(told)|, entries[i], replies[i])
        invariant forall i, j :: 0 <= i < j < |replies| && Final(Some(replies[i])) && Final(Some(replies[j])) ==> entries[i] < entries[j]
        invariant old(Blocked()) ==> Blocked() && forall i :: 0 <= i < |replies| ==> replies[i] in {Error, Rejected, InState(RecoveryRequired)}
      {
        ghost var place := |told|;
        var reply := Take(turns[n]);
        if reply.Some? {
          replies := replies + [reply.value];
          entries := entries + [place];
        }
      }
    }
  }
}
