/** The monitor itself, server/src/monitor.cpp: queues, counters and time stamps instead of the history. */
module Monitor {
  import opened Octets
  import opened MonitorHistory
  import opened MonitorRuns

  datatype UserStats = UserStats(
    hourCounts: seq<nat>, totalLogins: nat,
    failedTimes: seq<int>, fileOpTimes: seq<int>, decryptTimes: seq<int>, decryptSizeTimes: seq<(int, nat)>,
    totalDecryptOps: nat, totalDecryptBytes: nat,
    lastFailedAlert: int, lastBulkAlert: int, lastTimeAlert: int, lastRateAlert: int, lastVolumeAlert: int,
    strikeLevel: nat, lockUntil: int)
  {
    function LastAlertOf(g: Group): int {
      match g
      case FailedGroup => lastFailedAlert
      case BulkGroup => lastBulkAlert
      case TimeGroup => lastTimeAlert
      case RateGroup => lastRateAlert
      case VolumeGroup => lastVolumeAlert
    }

    function Alerted(g: Group, now: int): UserStats {
      match g
      case FailedGroup => this.(lastFailedAlert := now)
      case BulkGroup => this.(lastBulkAlert := now)
      case TimeGroup => this.(lastTimeAlert := now)
      case RateGroup => this.(lastRateAlert := now)
      case VolumeGroup => this.(lastVolumeAlert := now)
    }
  }

  const FRESH := UserStats(Copies(0, 24), 0, [], [], [], [], 0, 0, 0, 0, 0, 0, 0, 0, 0)

  // ---- Queues ----

  /** What a queue should hold: the window as of its latest event. */
  ghost function Recent<T>(xs: seq<T>, at: T -> int, width: int): seq<T> {
    if xs == [] then [] else Window(xs, at, at(xs[|xs| - 1]), width)
  }

  lemma {:induction false} WindowConcat<T>(xs: seq<T>, ys: seq<T>, at: T -> int, now: int, width: int)
    ensures Window(xs + ys, at, now, width) == Window(xs, at, now, width) + Window(ys, at, now, width)
    decreases |ys|
  {
    if ys == [] {
      assert xs + ys == xs;
    } else {
      var n := |ys| - 1;
      assert (xs + ys)[..|xs + ys| - 1] == xs + ys[..n];
      WindowConcat(xs, ys[..n], at, now, width);
    }
  }

  /** Narrowing a window in two steps is narrowing it at once. */
  lemma {:induction false} WindowTwice<T>(xs: seq<T>, at: T -> int, then_: int, now: int, width: int)
    requires then_ <= now
    ensures Window(Window(xs, at, then_, width), at, now, width) == Window(xs, at, now, width)
  {
    if xs != [] {
      var n := |xs| - 1;
      WindowTwice(xs[..n], at, then_, now, width);
      var r := Window(xs[..n], at, then_, width);
      if then_ - at(xs[n]) <= width { assert (r + [xs[n]])[..|r|] == r; }
    }
  }

  lemma {:induction false} WindowAll<T>(xs: seq<T>, at: T -> int, now: int, width: int)
    requires forall i :: 0 <= i < |xs| ==> now - at(xs[i]) <= width
    ensures Window(xs, at, now, width) == xs
  {
    if xs != [] {
      WindowAll(xs[..|xs| - 1], at, now, width);
      assert xs == xs[..|xs| - 1] + [xs[|xs| - 1]];
    }
  }

  lemma {:induction false} WindowIsSubsequence<T>(xs: seq<T>, at: T -> int, now: int, width: int)
    requires Ordered(xs, at)
    ensures Ordered(Window(xs, at, now, width), at)
    ensures xs != [] ==> forall i :: 0 <= i < |Window(xs, at, now, width)| ==> at(Window(xs, at, now, width)[i]) <= at(xs[|xs| - 1])
  {
    if xs != [] {
      WindowIsSubsequence(xs[..|xs| - 1], at, now, width);
    }
  }

  /** Dropping the outdated front of an ordered queue leaves the window. */
  lemma FrontDropped<T>(queue: seq<T>, n: nat, at: T -> int, now: int, width: int)
    requires n <= |queue| && Ordered(queue, at)
    requires forall i :: 0 <= i < n ==> now - at(queue[i]) > width
    requires n < |queue| ==> now - at(queue[n]) <= width
    ensures queue[n..] == Window(queue, at, now, width)
  {
    var gone, left := queue[..n], queue[n..];
    forall i | 0 <= i < |left| ensures now - at(left[i]) <= width {
      assert left[i] == queue[n + i];
    }
    WindowNone(gone, at, now, width);
    WindowAll(left, at, now, width);
    WindowConcat(gone, left, at, now, width);
    assert gone + left == queue && [] + left == left;
  }

  /** The eviction loop: what remains of an ordered queue is the window. */
  method Evict<T>(queue: seq<T>, at: T -> int, now: int, width: int) returns (r: seq<T>)
    ensures Ordered(queue, at) ==> r == Window(queue, at, now, width)
  {
    r := queue;
    ghost var n := 0;
    hide Window, Ordered;
    while r != [] && now - at(r[0]) > width
      invariant n <= |queue| && r == queue[n..]
      invariant forall i :: 0 <= i < n ==> now - at(queue[i]) > width
    {
      n := n + 1;
      r := r[1..];
    }
    if Ordered(queue, at) { FrontDropped(queue, n, at, now, width); }
  }

  lemma {:induction false} WindowNone<T>(xs: seq<T>, at: T -> int, now: int, width: int)
    requires forall i :: 0 <= i < |xs| ==> now - at(xs[i]) > width
    ensures Window(xs, at, now, width) == []
  {
    if xs != [] { WindowNone(xs[..|xs| - 1], at, now, width); }
  }

  /** Pushing the events of one moment and evicting keeps a queue what it should be. */
  lemma Refreshed<T>(xs: seq<T>, ys: seq<T>, at: T -> int, now: int, width: int)
    requires ys != [] && (forall i :: 0 <= i < |ys| ==> at(ys[i]) == now) && Ordered(xs + ys, at)
    ensures Ordered(xs, at) && Ordered(Recent(xs, at, width) + ys, at)
    ensures Window(Recent(xs, at, width) + ys, at, now, width) == Recent(xs + ys, at, width) == Window(xs + ys, at, now, width)
  {
    OrderedParts(xs, ys, at, now);
    WindowConcat(xs, ys, at, now, width);
    assert (xs + ys)[|xs + ys| - 1] == ys[|ys| - 1];
    if xs == [] {
      assert [] + ys == ys && xs + ys == ys;
    } else {
      var then_ := at(xs[|xs| - 1]);
      var kept := Window(xs, at, then_, width);
      WindowIsSubsequence(xs, at, then_, width);
      OrderedJoin(kept, ys, at, now);
      WindowConcat(kept, ys, at, now, width);
      WindowTwice(xs, at, then_, now, width);
    }
  }

  lemma OrderedParts<T>(xs: seq<T>, ys: seq<T>, at: T -> int, now: int)
    requires ys != [] && at(ys[0]) == now && Ordered(xs + ys, at)
    ensures Ordered(xs, at) && (xs != [] ==> at(xs[|xs| - 1]) <= now)
  {
    var all := xs + ys;
    assert all[|xs|] == ys[0];
    forall i, j | 0 <= i < j < |xs| ensures at(xs[i]) <= at(xs[j]) { assert all[i] == xs[i] && all[j] == xs[j]; }
    if xs != [] { assert all[|xs| - 1] == xs[|xs| - 1]; }
  }

  /** push_back, repeated. */
  method Push(queue: seq<int>, now: int, repeats: nat) returns (r: seq<int>)
    ensures r == queue + Copies(now, repeats)
  {
    r := queue;
    for i := 0 to repeats
      invariant r == queue + Copies(now, i)
    {
      assert Copies(now, i) + [now] == Copies(now, i + 1);
      r := r + [now];
    }
  }

  /** A queue takes in the events of the present moment. */
  method Enqueue(queue: seq<int>, ghost past: seq<int>, now: int, repeats: nat, width: int) returns (r: seq<int>)
    requires repeats > 0 && (Ordered(past, Stamp) ==> queue == Recent(past, Stamp, width))
    ensures Ordered(past + Copies(now, repeats), Stamp) ==> r == Recent(past + Copies(now, repeats), Stamp, width)
    ensures Ordered(past + Copies(now, repeats), Stamp) ==> r == Window(past + Copies(now, repeats), Stamp, now, width)
  {
    var pushed := Push(queue, now, repeats);
    r := Evict(pushed, Stamp, now, width);
    if Ordered(past + Copies(now, repeats), Stamp) { Refreshed(past, Copies(now, repeats), Stamp, now, width); }
  }

  method EnqueueSize(queue: seq<(int, nat)>, ghost past: seq<(int, nat)>, now: int, bytes: nat, width: int)
    returns (r: seq<(int, nat)>)
    requires Ordered(past, StampOf) ==> queue == Recent(past, StampOf, width)
    ensures Ordered(past + [(now, bytes)], StampOf) ==> r == Recent(past + [(now, bytes)], StampOf, width)
    ensures Ordered(past + [(now, bytes)], StampOf) ==> r == Window(past + [(now, bytes)], StampOf, now, width)
  {
    r := Evict(queue + [(now, bytes)], StampOf, now, width);
    if Ordered(past + [(now, bytes)], StampOf) { Refreshed(past, [(now, bytes)], StampOf, now, width); }
  }

  /** The window's volume, in 64-bit arithmetic. */
  method Sum(queue: seq<(int, nat)>) returns (bytes: nat)
    ensures bytes == Total(queue) % U64
  {
    bytes := 0;
    for i := 0 to |queue|
      invariant bytes == Total(queue[..i]) % U64
    {
      assert queue[..i + 1][..i] == queue[..i];
      bytes := (bytes + queue[i].1) % U64;
    }
    assert queue[..|queue|] == queue;
  }

  // ---- One user's statistics against the history ----

  ghost predicate Queues(cfg: MonitorConfig, s: UserStats, log: Log) {
    && (Ordered(Failures(log), Stamp) ==> s.failedTimes == Recent(Failures(log), Stamp, cfg.failedWindow))
    && (Ordered(Operations(log), Stamp) ==> s.fileOpTimes == Recent(Operations(log), Stamp, cfg.bulkWindow))
    && (Ordered(Decryptions(log), Stamp) ==> s.decryptTimes == Recent(Decryptions(log), Stamp, cfg.burstWindow))
    && (Ordered(Volumes(log), StampOf) ==> s.decryptSizeTimes == Recent(Volumes(log), StampOf, cfg.volumeWindow))
  }

  ghost predicate Counters(s: UserStats, log: Log) {
    && s.totalLogins == Logins(log) % U32
    && |s.hourCounts| == 24 && (forall h :: 0 <= h < 24 ==> s.hourCounts[h] == LoginsAt(log, h) % U32)
    && s.totalDecryptOps == |Decryptions(log)| % U64
    && s.totalDecryptBytes == DecryptedBytes(log) % U64
  }

  ghost predicate Sanctions(s: UserStats, log: Log) {
    && s.strikeLevel == Strikes(log) && s.lockUntil == LockedUntil(log)
    && forall g: Group :: s.LastAlertOf(g) == LastAlert(log, g)
  }

  /** Everything the monitor remembers of a user is what the history says. */
  ghost predicate Faithful(cfg: MonitorConfig, s: UserStats, log: Log) {
    Queues(cfg, s, log) && Counters(s, log) && Sanctions(s, log) && Legitimate(cfg, log)
  }

  /** Everything that ever happened to a user, and what was decided about it. */
  datatype Account = Account(log: Log, run: seq<Event>)

  /** The statistics say what the log says, and the log what happened. */
  ghost predicate Accounted(cfg: MonitorConfig, s: UserStats, a: Account) {
    Faithful(cfg, s, a.log) && Follows(cfg, a.log, a.run)
  }

  /** Everybody's statistics are accounted for. */
  ghost predicate Filed(cfg: MonitorConfig, stats: map<string, UserStats>, accounts: map<string, Account>) {
    stats.Keys == accounts.Keys && forall u :: u in stats ==> Accounted(cfg, stats[u], accounts[u])
  }

  lemma FiledAnew(cfg: MonitorConfig, stats: map<string, UserStats>, accounts: map<string, Account>, user: string, s: UserStats, a: Account)
    requires Filed(cfg, stats, accounts) && Accounted(cfg, s, a)
    ensures Filed(cfg, stats[user := s], accounts[user := a])
  {
    hide Accounted;
  }

  lemma FreshQueues(cfg: MonitorConfig)
    ensures Queues(cfg, FRESH, [])
  {}

  lemma FreshCounters()
    ensures Counters(FRESH, []) && Sanctions(FRESH, [])
  {}

  lemma FreshFaithful(cfg: MonitorConfig)
    ensures Faithful(cfg, FRESH, [])
  {
    FreshQueues(cfg);
    FreshCounters();
    hide Queues, Counters, Sanctions, FRESH;
  }

  /** Alerts and unlocking leave queues and counters alone. */
  lemma Unrelated(cfg: MonitorConfig, s: UserStats, log: Log, e: Entry)
    requires e.Alert? || e.Unlock?
    ensures Queues(cfg, s, log) ==> Queues(cfg, s, log + [e])
    ensures Counters(s, log) ==> Counters(s, log + [e])
    ensures Failures(log + [e]) == Failures(log) && Operations(log + [e]) == Operations(log)
    ensures Decryptions(log + [e]) == Decryptions(log) && Volumes(log + [e]) == Volumes(log)
    ensures DecryptedBytes(log + [e]) == DecryptedBytes(log) && Logins(log + [e]) == Logins(log)
  {
    Appended(log, e);
    hide Recent, Ordered;
    assert log + [e] != [];
    Unseen(log, e);
    forall h | 0 <= h < 24 ensures LoginsAt(log + [e], h) == LoginsAt(log, h) {}
  }

  /** The alert on record and the lock it imposes. */
  lemma SanctionsAfter(cfg: MonitorConfig, s: UserStats, log: Log, k: Kind, now: int)
    requires Sanctions(s, log)
    ensures var e := Verdict(cfg, log, k, now);
      && e.until > now
      && Sanctions(s.Alerted(GroupOf(k), now).(
           strikeLevel := if Configured(cfg, k) > 0 || s.strikeLevel >= 1000 then s.strikeLevel else s.strikeLevel + 1,
           lockUntil := if s.lockUntil < e.until then e.until else s.lockUntil), log + [e])
  {
    var e := Verdict(cfg, log, k, now);
    Appended(log, e);
    assert e.Alert? && log + [e] != [];
    assert Strikes(log + [e]) == if e.escalated && Strikes(log) < 1000 then Strikes(log) + 1 else Strikes(log);
    assert LockedUntil(log + [e]) == if LockedUntil(log) < e.until then e.until else LockedUntil(log);
    forall g: Group ensures s.Alerted(GroupOf(k), now).LastAlertOf(g) == LastAlert(log + [e], g) {
      assert LastAlert(log + [e], g) == if GroupOf(k) == g then now else LastAlert(log, g);
    }
  }

  lemma QueuesMean(cfg: MonitorConfig, s: UserStats, log: Log)
    requires Queues(cfg, s, log)
    ensures Ordered(Failures(log), Stamp) ==> s.failedTimes == Recent(Failures(log), Stamp, cfg.failedWindow)
    ensures Ordered(Operations(log), Stamp) ==> s.fileOpTimes == Recent(Operations(log), Stamp, cfg.bulkWindow)
    ensures Ordered(Decryptions(log), Stamp) ==> s.decryptTimes == Recent(Decryptions(log), Stamp, cfg.burstWindow)
    ensures Ordered(Volumes(log), StampOf) ==> s.decryptSizeTimes == Recent(Volumes(log), StampOf, cfg.volumeWindow)
  {}

  /** Only alert times, strikes and the lock may differ. */
  ghost predicate SameRecords(s: UserStats, t: UserStats) {
    t == s.(lastFailedAlert := t.lastFailedAlert, lastBulkAlert := t.lastBulkAlert, lastTimeAlert := t.lastTimeAlert,
      lastRateAlert := t.lastRateAlert, lastVolumeAlert := t.lastVolumeAlert, strikeLevel := t.strikeLevel, lockUntil := t.lockUntil)
  }

  /** The log before and after a test. */
  ghost predicate Tested(cfg: MonitorConfig, log: Log, after: Log, k: Kind, now: int) {
    after == log || after == log + [Verdict(cfg, log, k, now)]
  }

  /** A test changes nothing that queues and counters are about. */
  lemma RecordsKept(cfg: MonitorConfig, s: UserStats, t: UserStats, log: Log, after: Log, k: Kind, now: int)
    requires SameRecords(s, t) && Tested(cfg, log, after, k, now)
    ensures Queues(cfg, s, log) ==> Queues(cfg, t, after)
    ensures Counters(s, log) ==> Counters(t, after)
    ensures Failures(after) == Failures(log) && Operations(after) == Operations(log)
    ensures Decryptions(after) == Decryptions(log) && Volumes(after) == Volumes(log)
    ensures DecryptedBytes(after) == DecryptedBytes(log) && Logins(after) == Logins(log)
  {
    hide Recent, Ordered;
    if after != log { Unrelated(cfg, s, log, Verdict(cfg, log, k, now)); }
  }

  /** The first entry of an operation does not touch what sanctions are about. */
  lemma NoSanction(cfg: MonitorConfig, s: UserStats, log: Log, e: Entry)
    requires Sanctions(s, log) && Legitimate(cfg, log) && (e.Failure? || e.FileOp?)
    ensures Sanctions(s, log + [e]) && Legitimate(cfg, log + [e])
  {
    Appended(log, e);
    LegitimateAppend(cfg, log, e);
    hide Legitimate;
    assert log + [e] != [];
    assert Strikes(log + [e]) == Strikes(log) && LockedUntil(log + [e]) == LockedUntil(log);
    forall g: Group ensures LastAlert(log + [e], g) == LastAlert(log, g) {}
  }

  lemma FailureRecorded(cfg: MonitorConfig, s: UserStats, t: UserStats, log: Log, now: int)
    requires Queues(cfg, s, log) && Counters(s, log) && t == s.(failedTimes := t.failedTimes)
    requires Ordered(Failures(log) + [now], Stamp) ==> t.failedTimes == Recent(Failures(log) + [now], Stamp, cfg.failedWindow)
    ensures Queues(cfg, t, log + [Failure(now)]) && Counters(t, log + [Failure(now)])
    ensures Failures(log + [Failure(now)]) == Failures(log) + [now]
  {
    Appended(log, Failure(now));
    hide Recent, Ordered;
    var all := log + [Failure(now)];
    assert all != [];
    assert Failures(all) == Failures(log) + [now];
    assert Operations(all) == Operations(log) && Decryptions(all) == Decryptions(log) && Volumes(all) == Volumes(log);
    forall h | 0 <= h < 24 ensures LoginsAt(all, h) == LoginsAt(log, h) {}
  }

  /** What a successful login does to the user's statistics before any test. */
  function LoggedIn(s: UserStats, hour: Hour): UserStats
    requires |s.hourCounts| == 24
  {
    s.(totalLogins := (s.totalLogins + 1) % U32,
      hourCounts := s.hourCounts[hour := (s.hourCounts[hour] + 1) % U32],
      failedTimes := [],
      strikeLevel := if s.strikeLevel > 0 then s.strikeLevel - 1 else s.strikeLevel)
  }

  lemma NextMod(a: nat)
    ensures (a % U32 + 1) % U32 == (a + 1) % U32
  {}

  lemma LoginCounted(s: UserStats, log: Log, now: int, hour: Hour)
    requires Counters(s, log)
    ensures Counters(LoggedIn(s, hour), log + [Success(now, hour)])
  {
    var all := log + [Success(now, hour)];
    Appended(log, Success(now, hour));
    assert all != [];
    assert Decryptions(all) == Decryptions(log) && DecryptedBytes(all) == DecryptedBytes(log) && Logins(all) == Logins(log) + 1;
    NextMod(Logins(log));
    NextMod(LoginsAt(log, hour));
    forall h | 0 <= h < 24 ensures LoggedIn(s, hour).hourCounts[h] == LoginsAt(all, h) % U32 {
      assert LoginsAt(all, h) == LoginsAt(log, h) + (if hour == h then 1 else 0);
    }
  }

  lemma SuccessRecorded(cfg: MonitorConfig, s: UserStats, log: Log, now: int, hour: Hour)
    requires Faithful(cfg, s, log)
    ensures Faithful(cfg, LoggedIn(s, hour), log + [Success(now, hour)])
    ensures forall k: Kind :: Cooled(cfg, log + [Success(now, hour)], k, now) == Cooled(cfg, log, k, now)
  {
    var e := Success(now, hour);
    var all := log + [e];
    Appended(log, e);
    LegitimateAppend(cfg, log, e);
    LoginCounted(s, log, now, hour);
    EmptyQueue(cfg);
    hide Recent, Ordered, Legitimate, Counters;
    assert all != [];
    assert Failures(all) == [];
    assert Operations(all) == Operations(log) && Decryptions(all) == Decryptions(log) && Volumes(all) == Volumes(log);
    assert Strikes(all) == (if Strikes(log) > 0 then Strikes(log) - 1 else 0) && LockedUntil(all) == LockedUntil(log);
    forall g: Group ensures LastAlert(all, g) == LastAlert(log, g) {}
  }

  lemma EmptyQueue(cfg: MonitorConfig)
    ensures Recent([], Stamp, cfg.failedWindow) == []
  {}

  lemma Unlocked(cfg: MonitorConfig, s: UserStats, t: UserStats, log: Log)
    requires Faithful(cfg, s, log) && t == s.(lockUntil := 0, strikeLevel := 0)
    ensures Faithful(cfg, t, log + [Unlock])
  {
    Unrelated(cfg, t, log, Unlock);
    Appended(log, Unlock);
    LegitimateAppend(cfg, log, Unlock);
    hide Recent, Ordered, Legitimate;
    assert log + [Unlock] != [];
    assert Strikes(log + [Unlock]) == 0 && LockedUntil(log + [Unlock]) == 0;
    forall g: Group ensures LastAlert(log + [Unlock], g) == LastAlert(log, g) {}
  }

  lemma OperationRecorded(cfg: MonitorConfig, s: UserStats, t: UserStats, log: Log, e: Entry)
    requires Queues(cfg, s, log) && Counters(s, log) && e.FileOp? && !e.decrypt && t == s.(fileOpTimes := t.fileOpTimes)
    requires var ops := Operations(log) + Copies(e.ts, e.repeats);
      Ordered(ops, Stamp) ==> t.fileOpTimes == Recent(ops, Stamp, cfg.bulkWindow)
    ensures Queues(cfg, t, log + [e]) && Counters(t, log + [e])
    ensures Operations(log + [e]) == Operations(log) + Copies(e.ts, e.repeats)
  {
    FileOpViews(log, e);
    hide Recent, Ordered;
  }

  lemma SumMod(a: nat, b: nat)
    ensures (a % U64 + b) % U64 == (a + b) % U64
  {}

  lemma DecryptionCounted(s: UserStats, t: UserStats, log: Log, e: Entry)
    requires Counters(s, log) && e.FileOp? && e.decrypt && t.totalLogins == s.totalLogins && t.hourCounts == s.hourCounts
    requires t.totalDecryptOps == (s.totalDecryptOps + e.repeats) % U64
    requires t.totalDecryptBytes == (s.totalDecryptBytes + e.bytes) % U64
    ensures Counters(t, log + [e])
  {
    FileOpViews(log, e);
    SumMod(|Decryptions(log)|, e.repeats);
    SumMod(DecryptedBytes(log), e.bytes);
    hide Decryptions, DecryptedBytes, LoginsAt, Logins;
  }

  lemma DecryptionRecorded(cfg: MonitorConfig, s: UserStats, t: UserStats, log: Log, e: Entry)
    requires Queues(cfg, s, log) && Counters(s, log) && e.FileOp? && e.decrypt
    requires t == s.(fileOpTimes := t.fileOpTimes, decryptTimes := t.decryptTimes, decryptSizeTimes := t.decryptSizeTimes,
      totalDecryptOps := (s.totalDecryptOps + e.repeats) % U64, totalDecryptBytes := (s.totalDecryptBytes + e.bytes) % U64)
    requires var ops := Operations(log) + Copies(e.ts, e.repeats);
      Ordered(ops, Stamp) ==> t.fileOpTimes == Recent(ops, Stamp, cfg.bulkWindow)
    requires var times := Decryptions(log) + Copies(e.ts, e.repeats);
      Ordered(times, Stamp) ==> t.decryptTimes == Recent(times, Stamp, cfg.burstWindow)
    requires var sizes := Volumes(log) + [(e.ts, e.bytes)];
      Ordered(sizes, StampOf) ==> t.decryptSizeTimes == Recent(sizes, StampOf, cfg.volumeWindow)
    ensures Queues(cfg, t, log + [e]) && Counters(t, log + [e])
    ensures Operations(log + [e]) == Operations(log) + Copies(e.ts, e.repeats)
    ensures Decryptions(log + [e]) == Decryptions(log) + Copies(e.ts, e.repeats)
    ensures Volumes(log + [e]) == Volumes(log) + [(e.ts, e.bytes)]
  {
    FileOpViews(log, e);
    DecryptionCounted(s, t, log, e);
    hide Recent, Ordered, Counters;
  }

  lemma CountersMean(s: UserStats, log: Log)
    requires Counters(s, log)
    ensures s.totalLogins == Logins(log) % U32 && s.totalDecryptOps == |Decryptions(log)| % U64
    ensures s.totalDecryptBytes == DecryptedBytes(log) % U64
  {}

  function SumTo(counts: seq<nat>, n: nat): nat
    requires n <= |counts|
  {
    if n == 0 then 0 else SumTo(counts, n - 1) + counts[n - 1]
  }

  lemma {:induction false} SumsAgree(s: UserStats, log: Log, n: nat)
    requires Counters(s, log) && n <= 24
    ensures SumTo(s.hourCounts, n) % U32 == LoginsUpTo(log, n) % U32
    ensures SumTo(s.hourCounts, n) <= LoginsUpTo(log, n)
    ensures Logins(log) < U32 && LoginsUpTo(log, n) <= Logins(log) ==> SumTo(s.hourCounts, n) == LoginsUpTo(log, n)
  {
    if n > 0 {
      SumsAgree(s, log, n - 1);
      AddMod(SumTo(s.hourCounts, n - 1), LoginsUpTo(log, n - 1), LoginsAt(log, n - 1));
    }
  }

  lemma AddMod(a: nat, b: nat, c: nat)
    requires a % U32 == b % U32
    ensures (a + c % U32) % U32 == (b + c) % U32
    ensures c < U32 ==> c % U32 == c
    ensures c % U32 <= c
  {
    assert a + c % U32 == b + c + U32 * (a / U32 - b / U32 - c / U32);
  }

  /** The hour counters sum to the login total, up to the width of the counters. */
  lemma HourCountersSum(s: UserStats, log: Log)
    requires Counters(s, log)
    ensures SumTo(s.hourCounts, 24) % U32 == s.totalLogins
    ensures Logins(log) < U32 ==> SumTo(s.hourCounts, 24) == s.totalLogins
  {
    HoursAccount(log);
    SumsAgree(s, log, 24);
  }

  class SecurityMonitor {
    const cfg: MonitorConfig
    var stats: map<string, UserStats>
    ghost var accounts: map<string, Account>

    ghost predicate Valid()
      reads this
    {
      Filed(cfg, stats, accounts)
    }

    constructor (cfg: MonitorConfig)
      ensures Valid() && this.cfg == cfg && stats == map[]
    {
      this.cfg, stats, accounts := cfg, map[], map[];
    }

    ghost function AccountOf(user: string): Account
      reads this
    {
      if user in accounts then accounts[user] else Account([], [])
    }

    ghost function LogOf(user: string): Log
      reads this
    {
      AccountOf(user).log
    }

    ghost function RunOf(user: string): seq<Event>
      reads this
    {
      AccountOf(user).run
    }

    /** Whatever the run and whatever the clock: alerts of one group are more than the cooldown apart. */
    lemma AlertsSpaced(user: string, i: nat, j: nat)
      requires Valid() && cfg.cooldown >= 0 && i < j < |LogOf(user)|
      requires LogOf(user)[i].Alert? && LogOf(user)[j].Alert? && GroupOf(LogOf(user)[i].kind) == GroupOf(LogOf(user)[j].kind)
      ensures LogOf(user)[j].ts - LogOf(user)[i].ts > cfg.cooldown
    {
      assert Accounted(cfg, stats[user], accounts[user]);
      AlertsApart(cfg, LogOf(user), i, j);
    }

    /** Everything about the other users is as it was. */
    twostate predicate OnlyTouched(user: string)
      reads this
    {
      && user in stats && stats == old(stats)[user := stats[user]]
      && user in accounts && accounts == old(accounts)[user := accounts[user]]
    }

    /** stats_[username] */
    method Lookup(user: string) returns (s: UserStats)
      requires Valid()
      ensures Faithful(cfg, s, LogOf(user)) && Follows(cfg, LogOf(user), RunOf(user))
    {
      if user in stats { return stats[user]; }
      FreshFaithful(cfg);
      s := FRESH;
    }

    method Store(user: string, s: UserStats, ghost log: Log, ghost event: Event)
      requires Valid() && Faithful(cfg, s, log) && Follows(cfg, log, RunOf(user) + [event])
      modifies this
      ensures Valid() && OnlyTouched(user) && user in stats && stats[user] == s
      ensures LogOf(user) == log && RunOf(user) == old(RunOf(user)) + [event]
    {
      ghost var account := Account(log, RunOf(user) + [event]);
      assert Accounted(cfg, s, account);
      FiledAnew(cfg, stats, accounts, user, s, account);
      hide Filed, Accounted, Faithful, Follows;
      stats := stats[user := s];
      accounts := accounts[user := account];
    }

    /** choose_lock_duration: the lock and the strikes that the user's history calls for. */
    method ChooseLockDuration(s: UserStats, configured: int, ghost k: Kind, ghost log: Log) returns (t: UserStats, seconds: int)
      requires s.strikeLevel == Strikes(log) && configured == Configured(cfg, k)
      ensures seconds > 0 && SameRecords(s, t) && t == s.(strikeLevel := t.strikeLevel)
      ensures forall now :: now + seconds == Verdict(cfg, log, k, now).until && t.strikeLevel == Strikes(log + [Verdict(cfg, log, k, now)])
    {
      forall now ensures Before(log + [Verdict(cfg, log, k, now)]) == log { Appended(log, Verdict(cfg, log, k, now)); }
      if configured > 0 { return s, configured; }
      t := if s.strikeLevel < 1000 then s.(strikeLevel := s.strikeLevel + 1) else s;
      seconds := Ladder(t.strikeLevel);
    }

    /** One test: an alert, a strike and a lock, if the limit is reached and the cooldown over. */
    method Test(s: UserStats, k: Kind, now: int, reached: bool, ghost log: Log) returns (t: UserStats, ghost after: Log)
      requires Sanctions(s, log) && Legitimate(cfg, log)
      ensures Sanctions(t, after) && Legitimate(cfg, after) && SameRecords(s, t)
      ensures after == if reached && Cooled(cfg, log, k, now) then log + [Verdict(cfg, log, k, now)] else log
      ensures after != log ==> t.lockUntil > now
      ensures t.lockUntil >= s.lockUntil
    {
      hide Legitimate, LastAlert, Strikes, LockedUntil;
      t, after := s, log;
      if reached && now - s.LastAlertOf(GroupOf(k)) > cfg.cooldown {
        var seconds;
        t := s.Alerted(GroupOf(k), now);
        t, seconds := ChooseLockDuration(t, Configured(cfg, k), k, log);
        t := t.(lockUntil := if t.lockUntil < now + seconds then now + seconds else t.lockUntil);
        SanctionsAfter(cfg, s, log, k, now);
        LegitimateAppend(cfg, log, Verdict(cfg, log, k, now));
        after := log + [Verdict(cfg, log, k, now)];
      }
    }

    /** The failure is queued and tested. */
    method CountFailure(s: UserStats, now: int, ghost log: Log) returns (u: UserStats, ghost after: Log)
      requires Faithful(cfg, s, log)
      ensures Faithful(cfg, u, after) && u.lockUntil >= s.lockUntil
      ensures log + [Failure(now)] <= after && (after != log + [Failure(now)] ==> u.lockUntil > now)
      ensures Ordered(Failures(log + [Failure(now)]), Stamp) ==> after == AfterFailure(cfg, log, now)
    {
      hide Window, Recent, Ordered, Legitimate, Cooled, Verdict, Queues, Counters, Strikes, LockedUntil, LastAlert;
      ghost var e := Failure(now);
      assert Copies(now, 1) == [now];
      assert Ordered(Failures(log), Stamp) ==> s.failedTimes == Recent(Failures(log), Stamp, cfg.failedWindow) by { QueuesMean(cfg, s, log); }
      var failed := Enqueue(s.failedTimes, Failures(log), now, 1, cfg.failedWindow);
      NoSanction(cfg, s, log, e);
      var t := s.(failedTimes := failed);
      FailureRecorded(cfg, s, t, log, now);
      u, after := Test(t, FailedLogins, now, |failed| >= cfg.failedThreshold, log + [e]);
      RecordsKept(cfg, t, u, log + [e], after, FailedLogins, now);
    }

    /** record_login_failure */
    method RecordLoginFailure(user: string, now: int)
      requires Valid()
      modifies this
      ensures Valid() && OnlyTouched(user) && LockedUntil(LogOf(user)) >= old(LockedUntil(LogOf(user)))
      ensures RunOf(user) == old(RunOf(user)) + [FailedLogin(now)]
      ensures old(LogOf(user)) + [Failure(now)] <= LogOf(user)
      ensures LogOf(user) != old(LogOf(user)) + [Failure(now)] ==> stats[user].lockUntil > now
      ensures Ordered(Failures(old(LogOf(user)) + [Failure(now)]), Stamp) ==>
        LogOf(user) == AfterFailure(cfg, old(LogOf(user)), now)
    {
      hide Ordered, Failures, AfterFailure, Legitimate, Queues, Counters, LockedUntil, Strikes, LastAlert, Follows;
      var s := Lookup(user);
      ghost var log := LogOf(user);
      ghost var after;
      s, after := CountFailure(s, now, log);
      FailureFollows(cfg, log, after, RunOf(user), now);
      Store(user, s, after, FailedLogin(now));
    }

    /** is_suspicious_hour */
    predicate IsSuspiciousHour(s: UserStats, hour: Hour)
      requires |s.hourCounts| == 24
    {
      if OutsideWork(cfg, hour) then true
      else if s.totalLogins < cfg.minSamples then false
      else s.hourCounts[hour] as real < s.totalLogins as real * cfg.hourFraction
    }

    lemma SuspiciousAgrees(s: UserStats, log: Log, hour: Hour)
      requires Counters(s, log)
      ensures IsSuspiciousHour(s, hour) == Suspicious(cfg, log, hour)
    {
      hide OutsideWork, Logins, LoginsAt;
    }

    /** The success is counted and tested. */
    method CountLogin(s: UserStats, now: int, hour: Hour, ghost log: Log) returns (u: UserStats, ghost after: Log)
      requires Faithful(cfg, s, log)
      ensures Faithful(cfg, u, after) && u.lockUntil >= s.lockUntil && after == AfterSuccess(cfg, log, now, hour)
      ensures |after| > |log| + 1 ==> u.lockUntil > now
    {
      hide Window, Recent, Ordered, Legitimate, Verdict, Queues, Strikes, LockedUntil, LastAlert, OutsideWork, Logins, LoginsAt;
      var suspicious := IsSuspiciousHour(s, hour);
      SuspiciousAgrees(s, log, hour);
      var t := LoggedIn(s, hour);
      SuccessRecorded(cfg, s, log, now, hour);
      assert t.lockUntil == LockedUntil(log);
      hide Counters, LoggedIn, Suspicious, IsSuspiciousHour, Cooled;
      u, after := Test(t, SuspiciousTime, now, suspicious, log + [Success(now, hour)]);
      RecordsKept(cfg, t, u, log + [Success(now, hour)], after, SuspiciousTime, now);
    }

    /** record_login_success */
    method RecordLoginSuccess(user: string, now: int, hour: Hour)
      requires Valid()
      modifies this
      ensures Valid() && OnlyTouched(user) && LockedUntil(LogOf(user)) >= old(LockedUntil(LogOf(user)))
      ensures RunOf(user) == old(RunOf(user)) + [Login(now, hour)]
      ensures LogOf(user) == AfterSuccess(cfg, old(LogOf(user)), now, hour)
      ensures |LogOf(user)| > |old(LogOf(user))| + 1 ==> stats[user].lockUntil > now
    {
      hide AfterSuccess, Legitimate, Queues, Counters, LockedUntil, Strikes, LastAlert, Follows;
      var s := Lookup(user);
      ghost var log := LogOf(user);
      ghost var after;
      s, after := CountLogin(s, now, hour, log);
      SuccessFollows(cfg, log, after, RunOf(user), now, hour);
      Store(user, s, after, Login(now, hour));
    }

    /** One of the tests on decryptions. */
    method Examine(s: UserStats, k: Kind, now: int, reached: bool, ghost log: Log) returns (t: UserStats, ghost after: Log)
      requires Faithful(cfg, s, log)
      ensures Faithful(cfg, t, after) && SameRecords(s, t) && Tested(cfg, log, after, k, now)
      ensures after == if reached && Cooled(cfg, log, k, now) then log + [Verdict(cfg, log, k, now)] else log
      ensures after != log ==> t.lockUntil > now
      ensures t.lockUntil >= s.lockUntil
      ensures Decryptions(after) == Decryptions(log) && Volumes(after) == Volumes(log)
      ensures DecryptedBytes(after) == DecryptedBytes(log) && Logins(after) == Logins(log)
    {
      hide Sanctions, Legitimate, Queues, Counters, Cooled, Verdict, SameRecords;
      t, after := Test(s, k, now, reached, log);
      RecordsKept(cfg, s, t, log, after, k, now);
    }

    /** The three tests that follow a decryption. */
    method ExamineDecryption(s: UserStats, now: int, bytes: nat, ghost log: Log) returns (t: UserStats, ghost after: Log)
      requires Faithful(cfg, s, log)
      requires Ordered(Decryptions(log), Stamp) ==> s.decryptTimes == Window(Decryptions(log), Stamp, now, cfg.burstWindow)
      requires Ordered(Volumes(log), StampOf) ==> s.decryptSizeTimes == Window(Volumes(log), StampOf, now, cfg.volumeWindow)
      ensures Faithful(cfg, t, after) && log <= after && (after != log ==> t.lockUntil > now) && t.lockUntil >= s.lockUntil
      ensures Ordered(Decryptions(log), Stamp) && Ordered(Volumes(log), StampOf) ==>
        after == AfterDecryption(cfg, log, now, bytes)
    {
      hide Window, Recent, Ordered, Sanctions, Legitimate, Queues, Cooled, Verdict, Deviates, Total;
      CountersMean(s, log);
      hide Counters, Decryptions, Volumes, DecryptedBytes, Logins;
      t, after := Examine(s, DecryptBurst, now, |s.decryptTimes| >= cfg.burstThreshold, log);
      var volume := Sum(t.decryptSizeTimes);
      var limit := cfg.volumeMegabytes * 0x100000 % U64;
      t, after := Examine(t, DecryptVolume, now, limit > 0 && volume >= limit, after);
      var unusual := Deviates(cfg, t.totalDecryptOps, t.totalDecryptBytes, t.totalLogins, |t.decryptTimes|, bytes);
      t, after := Examine(t, BehaviorDeviation, now, unusual, after);
    }

    /** The first half of record_file_op: the operation is queued and the bulk test made. */
    method CountOperation(s: UserStats, ghost log: Log, now: int, repeats: nat, ghost e: Entry)
      returns (t: UserStats, ghost after: Log)
      requires Faithful(cfg, s, log) && e.FileOp? && e.ts == now && e.repeats == repeats > 0
      ensures Sanctions(t, after) && Legitimate(cfg, after) && SameRecords(s.(fileOpTimes := t.fileOpTimes), t)
      ensures t.lockUntil >= s.lockUntil
      ensures Tested(cfg, log + [e], after, BulkFiles, now)
      ensures after != log + [e] ==> t.lockUntil > now
      ensures var ops := Operations(log) + Copies(now, repeats); Ordered(ops, Stamp) ==>
        t.fileOpTimes == Recent(ops, Stamp, cfg.bulkWindow) && after == Judged(cfg, log + [e], BulkFiles, now, e.bytes)
    {
      hide Window, Recent, Ordered, Legitimate, Queues, Counters, Cooled, Verdict, Strikes, LockedUntil, LastAlert;
      QueuesMean(cfg, s, log);
      FileOpViews(log, e);
      hide Operations;
      var fileOpTimes := Enqueue(s.fileOpTimes, Operations(log), now, repeats, cfg.bulkWindow);
      NoSanction(cfg, s, log, e);
      t, after := Test(s.(fileOpTimes := fileOpTimes), BulkFiles, now, |fileOpTimes| >= cfg.bulkThreshold, log + [e]);
    }

    /** The second half, for a decryption: s is what was known before, t what the first half left. */
    method CountDecryption(ghost s: UserStats, t: UserStats, ghost log: Log, ghost sofar: Log, now: int, repeats: nat, bytes: nat,
      ghost e: Entry) returns (u: UserStats, ghost after: Log)
      requires Queues(cfg, s, log) && Counters(s, log) && e == FileOp(now, true, repeats, bytes) && repeats > 0
      requires Sanctions(t, sofar) && Legitimate(cfg, sofar) && SameRecords(s.(fileOpTimes := t.fileOpTimes), t)
      requires Tested(cfg, log + [e], sofar, BulkFiles, now)
      requires var ops := Operations(log) + Copies(now, repeats);
        Ordered(ops, Stamp) ==> t.fileOpTimes == Recent(ops, Stamp, cfg.bulkWindow)
      ensures Faithful(cfg, u, after) && sofar <= after && (after != sofar ==> u.lockUntil > now) && u.lockUntil >= t.lockUntil
      ensures InOrder(log + [e]) ==> after == AfterDecryption(cfg, sofar, now, bytes)
    {
      hide Window, Recent, Ordered, Legitimate, Queues, Counters, Cooled, Verdict, Tested, AfterDecryption, Operations, Decryptions, Volumes;
      hide Strikes, LockedUntil, LastAlert;
      QueuesMean(cfg, s, log);
      var decryptTimes := Enqueue(t.decryptTimes, Decryptions(log), now, repeats, cfg.burstWindow);
      var sizes := EnqueueSize(t.decryptSizeTimes, Volumes(log), now, bytes, cfg.volumeWindow);
      ghost var recorded := s.(fileOpTimes := t.fileOpTimes, decryptTimes := decryptTimes, decryptSizeTimes := sizes,
        totalDecryptOps := (s.totalDecryptOps + repeats) % U64, totalDecryptBytes := (s.totalDecryptBytes + bytes) % U64);
      DecryptionRecorded(cfg, s, recorded, log, e);
      u := t.(decryptTimes := decryptTimes, decryptSizeTimes := sizes,
        totalDecryptOps := (t.totalDecryptOps + repeats) % U64, totalDecryptBytes := (t.totalDecryptBytes + bytes) % U64);
      RecordsKept(cfg, recorded, u, log + [e], sofar, BulkFiles, now);
      u, after := ExamineDecryption(u, now, bytes, sofar);
    }

    /** Both halves of record_file_op. */
    method CountFileOp(s: UserStats, op: string, now: int, count: nat, bytes: nat, ghost log: Log)
      returns (t: UserStats, ghost after: Log)
      requires Faithful(cfg, s, log)
      ensures Faithful(cfg, t, after) && t.lockUntil >= s.lockUntil
      ensures var begun := log + [FileOp(now, op == "decrypt", if count == 0 then 1 else count, bytes)];
        && begun <= after && (begun != after ==> t.lockUntil > now)
        && (InOrder(begun) ==> after == AfterFileOp(cfg, log, now, op == "decrypt", count, bytes))
    {
      hide Window, Recent, Ordered, Legitimate, Queues, Counters, Sanctions, Cooled, Verdict, Judged, AfterDecryption, SameRecords;
      var repeats := if count == 0 then 1 else count;
      ghost var e := FileOp(now, op == "decrypt", repeats, bytes);
      FileOpViews(log, e);
      hide Operations, Decryptions, Volumes;
      t, after := CountOperation(s, log, now, repeats, e);
      if op == "decrypt" {
        t, after := CountDecryption(s, t, log, after, now, repeats, bytes, e);
      } else {
        OperationRecorded(cfg, s, s.(fileOpTimes := t.fileOpTimes), log, e);
        RecordsKept(cfg, s.(fileOpTimes := t.fileOpTimes), t, log + [e], after, BulkFiles, now);
      }
    }

    /** record_file_op */
    method RecordFileOp(user: string, op: string, now: int, count: nat, bytes: nat)
      requires Valid()
      modifies this
      ensures Valid() && OnlyTouched(user) && LockedUntil(LogOf(user)) >= old(LockedUntil(LogOf(user)))
      ensures RunOf(user) == old(RunOf(user)) + [Operation(now, op == "decrypt", count, bytes)]
      ensures var begun := old(LogOf(user)) + [FileOp(now, op == "decrypt", if count == 0 then 1 else count, bytes)];
        && begun <= LogOf(user) && (begun != LogOf(user) ==> stats[user].lockUntil > now)
        && (InOrder(begun) ==> LogOf(user) == AfterFileOp(cfg, old(LogOf(user)), now, op == "decrypt", count, bytes))
    {
      hide Follows, Legitimate, Queues, Counters, InOrder, AfterFileOp, LockedUntil, Strikes, LastAlert;
      var s := Lookup(user);
      ghost var log := LogOf(user);
      ghost var after;
      s, after := CountFileOp(s, op, now, count, bytes, log);
      FileOpFollows(cfg, log, after, RunOf(user), now, op == "decrypt", count, bytes);
      Store(user, s, after, Operation(now, op == "decrypt", count, bytes));
    }

    /** is_locked */
    method IsLocked(user: string, now: int) returns (locked: bool, remaining: int)
      requires Valid()
      ensures locked <==> LockedUntil(LogOf(user)) > now && user in stats
      ensures locked ==> remaining > 0 && now + remaining == LockedUntil(LogOf(user))
    {
      remaining := 0;
      if user !in stats { return false, 0; }
      assert Accounted(cfg, stats[user], accounts[user]);
      if stats[user].lockUntil <= now { return false, 0; }
      return true, stats[user].lockUntil - now;
    }

    /** unlock_user */
    method UnlockUser(user: string) returns (known: bool)
      requires Valid()
      modifies this
      ensures Valid() && (known <==> user in old(stats))
      ensures !known ==> stats == old(stats) && accounts == old(accounts)
      ensures known ==> OnlyTouched(user) && LogOf(user) == old(LogOf(user)) + [Unlock]
      ensures known ==> RunOf(user) == old(RunOf(user)) + [Unlocking]
      ensures known ==> stats[user].lockUntil == 0 && stats[user].strikeLevel == 0
    {
      hide Window, Recent, Ordered, Queues, Counters, Legitimate;
      if user !in stats { return false; }
      ghost var log := LogOf(user);
      var s := stats[user];
      assert Accounted(cfg, s, accounts[user]);
      var t := s.(lockUntil := 0, strikeLevel := 0);
      Unlocked(cfg, s, t, log);
      UnlockFollows(cfg, log, RunOf(user));
      Store(user, t, log + [Unlock], Unlocking);
      known := true;
    }
  }
}
