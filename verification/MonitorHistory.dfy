/**
  * What the security monitor is meant to decide, from the whole history of one user:
  * no queues, no counters, no cached timestamps.
  */
module MonitorHistory {
  import opened Octets

  const U32 := 0x1_0000_0000
  const U64 := 0x1_0000_0000_0000_0000

  datatype MonitorConfig = MonitorConfig(
    failedThreshold: nat, failedWindow: int,
    bulkThreshold: nat, bulkWindow: int,
    minSamples: nat, hourFraction: real,
    cooldown: int,
    workStart: int, workEnd: int,
    lockFailed: int, lockBulk: int, lockTime: int,
    burstThreshold: nat, burstWindow: int,
    volumeMegabytes: nat, volumeWindow: int,
    profileMinimum: nat, rateFactor: real, bytesFactor: real)

  datatype Kind = FailedLogins | BulkFiles | SuspiciousTime | DecryptBurst | DecryptVolume | BehaviorDeviation

  /** Alerts of one group share a cooldown. */
  datatype Group = FailedGroup | BulkGroup | TimeGroup | RateGroup | VolumeGroup

  function GroupOf(k: Kind): Group {
    match k
    case FailedLogins => FailedGroup
    case BulkFiles => BulkGroup
    case SuspiciousTime => TimeGroup
    case DecryptBurst => RateGroup
    case DecryptVolume => VolumeGroup
    case BehaviorDeviation => RateGroup
  }

  type Hour = h: int | 0 <= h < 24

  datatype Entry =
    | Success(ts: int, hour: Hour)
    | Failure(ts: int)
    | FileOp(ts: int, decrypt: bool, repeats: nat, bytes: nat)
    | Alert(kind: Kind, ts: int, escalated: bool, until: int)
    | Unlock

  type Log = seq<Entry>

  function Before(log: Log): Log
    requires log != []
  {
    log[..|log| - 1]
  }

  function Last(log: Log): Entry
    requires log != []
  {
    log[|log| - 1]
  }

  /** Failed logins since the last success. */
  function Failures(log: Log): seq<int> {
    if log == [] then []
    else match Last(log)
      case Failure(ts) => Failures(Before(log)) + [ts]
      case Success(_, _) => []
      case _ => Failures(Before(log))
  }

  /** File operations, one time stamp for each repeat. */
  function Operations(log: Log): seq<int> {
    if log == [] then []
    else if Last(log).FileOp? then Operations(Before(log)) + Copies(Last(log).ts, Last(log).repeats)
    else Operations(Before(log))
  }

  function Decryptions(log: Log): seq<int> {
    if log == [] then []
    else if Last(log).FileOp? && Last(log).decrypt then Decryptions(Before(log)) + Copies(Last(log).ts, Last(log).repeats)
    else Decryptions(Before(log))
  }

  function Volumes(log: Log): seq<(int, nat)> {
    if log == [] then []
    else if Last(log).FileOp? && Last(log).decrypt then Volumes(Before(log)) + [(Last(log).ts, Last(log).bytes)]
    else Volumes(Before(log))
  }

  function DecryptedBytes(log: Log): nat {
    if log == [] then 0
    else DecryptedBytes(Before(log)) + (if Last(log).FileOp? && Last(log).decrypt then Last(log).bytes else 0)
  }

  function Logins(log: Log): nat {
    if log == [] then 0 else Logins(Before(log)) + (if Last(log).Success? then 1 else 0)
  }

  function LoginsAt(log: Log, h: int): nat {
    if log == [] then 0 else LoginsAt(Before(log), h) + (if Last(log).Success? && Last(log).hour == h then 1 else 0)
  }

  /** When the group last raised an alert; 0 if it never did. */
  function LastAlert(log: Log, g: Group): int {
    if log == [] then 0
    else if Last(log).Alert? && GroupOf(Last(log).kind) == g then Last(log).ts
    else LastAlert(Before(log), g)
  }

  function Strikes(log: Log): (n: nat)
    ensures n <= 1000
  {
    if log == [] then 0
    else
      var n := Strikes(Before(log));
      match Last(log)
      case Success(_, _) => if n > 0 then n - 1 else 0
      case Unlock => 0
      case Alert(_, _, true, _) => if n < 1000 then n + 1 else n
      case _ => n
  }

  /** The latest end of any lock imposed since the last unlocking; 0 if there is none. */
  function LockedUntil(log: Log): int {
    if log == [] then 0
    else match Last(log)
      case Unlock => 0
      case Alert(_, _, _, until) => if LockedUntil(Before(log)) < until then until else LockedUntil(Before(log))
      case _ => LockedUntil(Before(log))
  }

  /** The elements no older than the window. */
  function Window<T>(xs: seq<T>, at: T -> int, now: int, width: int): (r: seq<T>)
    ensures |r| <= |xs|
  {
    if xs == [] then []
    else
      var r := Window(xs[..|xs| - 1], at, now, width);
      if now - at(xs[|xs| - 1]) <= width then r + [xs[|xs| - 1]] else r
  }

  function Stamp(t: int): int { t }

  function StampOf(p: (int, nat)): int { p.0 }

  function Total(xs: seq<(int, nat)>): nat {
    if xs == [] then 0 else Total(xs[..|xs| - 1]) + xs[|xs| - 1].1
  }

  /** lock_ladder_sec */
  function Ladder(strikes: nat): (seconds: int)
    ensures seconds >= 60
  {
    if strikes <= 1 then 60 else if strikes == 2 then 300 else if strikes == 3 then 600
    else if strikes == 4 then 1800 else if strikes == 5 then 3600 else 7200
  }

  function Configured(cfg: MonitorConfig, k: Kind): int {
    match k
    case FailedLogins => cfg.lockFailed
    case BulkFiles => cfg.lockBulk
    case DecryptBurst => cfg.lockBulk
    case DecryptVolume => cfg.lockBulk
    case SuspiciousTime => cfg.lockTime
    case BehaviorDeviation => cfg.lockTime
  }

  /** The alert a user with this history gets: a configured lock, or the next rung of the ladder. */
  function Verdict(cfg: MonitorConfig, log: Log, k: Kind, now: int): Entry {
    var seconds := Configured(cfg, k);
    if seconds > 0 then Alert(k, now, false, now + seconds)
    else Alert(k, now, true, now + Ladder(if Strikes(log) < 1000 then Strikes(log) + 1 else 1000))
  }

  predicate Cooled(cfg: MonitorConfig, log: Log, k: Kind, now: int) {
    now - LastAlert(log, GroupOf(k)) > cfg.cooldown
  }

  /** is_outside_work_hours: the range wraps around midnight when it starts after it ends. */
  predicate OutsideWork(cfg: MonitorConfig, hour: int) {
    && cfg.workStart >= 0 && cfg.workEnd >= 0 && 0 <= hour <= 23
    && if cfg.workStart <= cfg.workEnd then hour < cfg.workStart || hour > cfg.workEnd
       else cfg.workEnd < hour < cfg.workStart
  }

  predicate Suspicious(cfg: MonitorConfig, log: Log, hour: Hour) {
    OutsideWork(cfg, hour) ||
    (Logins(log) % U32 >= cfg.minSamples && (LoginsAt(log, hour) % U32) as real < (Logins(log) % U32) as real * cfg.hourFraction)
  }

  function Mean(total: nat, n: nat): real {
    total as real / (if n < 1 then 1 else n) as real
  }

  /** More, or larger, decryptions than the user's average allows. */
  predicate Deviates(cfg: MonitorConfig, ops: nat, total: nat, logins: nat, recent: nat, bytes: nat) {
    ops >= cfg.profileMinimum &&
    (recent as real > Mean(ops, logins) * cfg.rateFactor || bytes as real > Mean(total, ops) * cfg.bytesFactor)
  }

  /** Whether the history up to and including the current operation calls for an alert. */
  predicate Triggered(cfg: MonitorConfig, log: Log, k: Kind, now: int, bytes: nat) {
    Cooled(cfg, log, k, now) &&
    match k
    case FailedLogins => |Window(Failures(log), Stamp, now, cfg.failedWindow)| >= cfg.failedThreshold
    case BulkFiles => |Window(Operations(log), Stamp, now, cfg.bulkWindow)| >= cfg.bulkThreshold
    case DecryptBurst => |Window(Decryptions(log), Stamp, now, cfg.burstWindow)| >= cfg.burstThreshold
    case DecryptVolume =>
      var limit := cfg.volumeMegabytes * 0x100000 % U64;
      limit > 0 && Total(Window(Volumes(log), StampOf, now, cfg.volumeWindow)) % U64 >= limit
    case BehaviorDeviation =>
      Deviates(cfg, |Decryptions(log)| % U64, DecryptedBytes(log) % U64, Logins(log) % U32,
        |Window(Decryptions(log), Stamp, now, cfg.burstWindow)|, bytes)
    case SuspiciousTime => false
  }

  /** One test and its consequence. */
  function Judged(cfg: MonitorConfig, log: Log, k: Kind, now: int, bytes: nat): Log {
    if Triggered(cfg, log, k, now, bytes) then log + [Verdict(cfg, log, k, now)] else log
  }

  function AfterFailure(cfg: MonitorConfig, log: Log, now: int): Log {
    Judged(cfg, log + [Failure(now)], FailedLogins, now, 0)
  }

  function AfterSuccess(cfg: MonitorConfig, log: Log, now: int, hour: Hour): Log {
    var after := log + [Success(now, hour)];
    if Suspicious(cfg, log, hour) && Cooled(cfg, log, SuspiciousTime, now)
    then after + [Verdict(cfg, after, SuspiciousTime, now)] else after
  }

  function AfterDecryption(cfg: MonitorConfig, log: Log, now: int, bytes: nat): Log {
    var burst := Judged(cfg, log, DecryptBurst, now, bytes);
    var volume := Judged(cfg, burst, DecryptVolume, now, bytes);
    Judged(cfg, volume, BehaviorDeviation, now, bytes)
  }

  function AfterFileOp(cfg: MonitorConfig, log: Log, now: int, decrypt: bool, count: nat, bytes: nat): Log {
    var bulk := Judged(cfg, log + [FileOp(now, decrypt, if count == 0 then 1 else count, bytes)], BulkFiles, now, bytes);
    if decrypt then AfterDecryption(cfg, bulk, now, bytes) else bulk
  }

  /** Appending one entry, seen through every view of the log. */
  lemma Appended(log: Log, e: Entry)
    ensures Before(log + [e]) == log && Last(log + [e]) == e
  {}

  /** The clock did not go back between these events. */
  ghost predicate Ordered<T>(xs: seq<T>, at: T -> int) {
    forall i, j :: 0 <= i < j < |xs| ==> at(xs[i]) <= at(xs[j])
  }

  lemma OrderedJoin<T>(xs: seq<T>, ys: seq<T>, at: T -> int, now: int)
    requires Ordered(xs, at) && forall i :: 0 <= i < |xs| ==> at(xs[i]) <= now
    requires forall i :: 0 <= i < |ys| ==> at(ys[i]) == now
    ensures Ordered(xs + ys, at)
  {}

  /** The clock did not go back between the user's file operations. */
  ghost predicate InOrder(log: Log) {
    Ordered(Operations(log), Stamp) && Ordered(Decryptions(log), Stamp) && Ordered(Volumes(log), StampOf)
  }

  /** What a file operation adds to the history. */
  lemma FileOpViews(log: Log, e: Entry)
    requires e.FileOp?
    ensures var all := log + [e];
      && Failures(all) == Failures(log) && Logins(all) == Logins(log)
      && (forall h :: 0 <= h < 24 ==> LoginsAt(all, h) == LoginsAt(log, h))
      && Operations(all) == Operations(log) + Copies(e.ts, e.repeats)
      && Decryptions(all) == (if e.decrypt then Decryptions(log) + Copies(e.ts, e.repeats) else Decryptions(log))
      && Volumes(all) == (if e.decrypt then Volumes(log) + [(e.ts, e.bytes)] else Volumes(log))
      && DecryptedBytes(all) == DecryptedBytes(log) + (if e.decrypt then e.bytes else 0)
  {
    Appended(log, e);
    assert log + [e] != [];
    forall h | 0 <= h < 24 ensures LoginsAt(log + [e], h) == LoginsAt(log, h) {}
  }

  /** Alerts and unlocking are seen by no view that a test looks at. */
  lemma Unseen(log: Log, e: Entry)
    requires e.Alert? || e.Unlock?
    ensures Failures(log + [e]) == Failures(log) && Operations(log + [e]) == Operations(log)
    ensures Decryptions(log + [e]) == Decryptions(log) && Volumes(log + [e]) == Volumes(log)
    ensures DecryptedBytes(log + [e]) == DecryptedBytes(log) && Logins(log + [e]) == Logins(log)
  {
    Appended(log, e);
    assert log + [e] != [];
  }

  // ---- What the reference monitor guarantees ----

  /** Every alert came after the cooldown of its group, and locked the user beyond its own time. */
  ghost predicate Legitimate(cfg: MonitorConfig, log: Log) {
    forall i :: 0 <= i < |log| && log[i].Alert? ==> Justified(cfg, log, i)
  }

  ghost predicate Justified(cfg: MonitorConfig, log: Log, i: nat)
    requires i < |log| && log[i].Alert?
  {
    Cooled(cfg, log[..i], log[i].kind, log[i].ts) && log[i].until > log[i].ts
  }

  lemma LegitimateAppend(cfg: MonitorConfig, log: Log, e: Entry)
    requires Legitimate(cfg, log)
    requires e.Alert? ==> Cooled(cfg, log, e.kind, e.ts) && e.until > e.ts
    ensures Legitimate(cfg, log + [e])
  {
    var all := log + [e];
    forall i | 0 <= i < |all| && all[i].Alert? ensures Justified(cfg, all, i) {
      if i < |log| {
        assert Justified(cfg, log, i) && all[..i] == log[..i];
      } else {
        assert all[..i] == log;
      }
    }
  }

  lemma JudgedLegitimate(cfg: MonitorConfig, log: Log, k: Kind, now: int, bytes: nat)
    requires Legitimate(cfg, log)
    ensures Legitimate(cfg, Judged(cfg, log, k, now, bytes))
  {
    if Triggered(cfg, log, k, now, bytes) { LegitimateAppend(cfg, log, Verdict(cfg, log, k, now)); }
  }

  lemma AfterFailureLegitimate(cfg: MonitorConfig, log: Log, now: int)
    requires Legitimate(cfg, log)
    ensures Legitimate(cfg, AfterFailure(cfg, log, now))
  {
    LegitimateAppend(cfg, log, Failure(now));
    JudgedLegitimate(cfg, log + [Failure(now)], FailedLogins, now, 0);
  }

  lemma AfterSuccessLegitimate(cfg: MonitorConfig, log: Log, now: int, hour: Hour)
    requires Legitimate(cfg, log)
    ensures Legitimate(cfg, AfterSuccess(cfg, log, now, hour))
  {
    var after := log + [Success(now, hour)];
    LegitimateAppend(cfg, log, Success(now, hour));
    Appended(log, Success(now, hour));
    if Suspicious(cfg, log, hour) && Cooled(cfg, log, SuspiciousTime, now) {
      LegitimateAppend(cfg, after, Verdict(cfg, after, SuspiciousTime, now));
    }
  }

  lemma AfterFileOpLegitimate(cfg: MonitorConfig, log: Log, now: int, decrypt: bool, count: nat, bytes: nat)
    requires Legitimate(cfg, log)
    ensures Legitimate(cfg, AfterFileOp(cfg, log, now, decrypt, count, bytes))
  {
    hide Judged;
    var e := FileOp(now, decrypt, if count == 0 then 1 else count, bytes);
    LegitimateAppend(cfg, log, e);
    JudgedLegitimate(cfg, log + [e], BulkFiles, now, bytes);
    var bulk := Judged(cfg, log + [e], BulkFiles, now, bytes);
    JudgedLegitimate(cfg, bulk, DecryptBurst, now, bytes);
    var burst := Judged(cfg, bulk, DecryptBurst, now, bytes);
    JudgedLegitimate(cfg, burst, DecryptVolume, now, bytes);
    JudgedLegitimate(cfg, Judged(cfg, burst, DecryptVolume, now, bytes), BehaviorDeviation, now, bytes);
  }

  /** The last alert of a group is at least as late as any of them. */
  lemma {:induction false} LastAlertLatest(cfg: MonitorConfig, log: Log, i: nat)
    requires Legitimate(cfg, log) && cfg.cooldown >= 0
    requires i < |log| && log[i].Alert?
    ensures LastAlert(log, GroupOf(log[i].kind)) >= log[i].ts
  {
    var g := GroupOf(log[i].kind);
    var n := |log| - 1;
    if i < n {
      forall k | 0 <= k < n && log[..n][k].Alert? ensures Justified(cfg, log[..n], k) {
        assert Justified(cfg, log, k) && log[..n][..k] == log[..k];
      }
      LastAlertLatest(cfg, log[..n], i);
      if log[n].Alert? && GroupOf(log[n].kind) == g { assert Justified(cfg, log, n); }
    }
  }

  /** Two alerts of one group, however far apart in the history, are more than the cooldown apart in time. */
  lemma AlertsApart(cfg: MonitorConfig, log: Log, i: nat, j: nat)
    requires Legitimate(cfg, log) && cfg.cooldown >= 0
    requires i < j < |log| && log[i].Alert? && log[j].Alert? && GroupOf(log[i].kind) == GroupOf(log[j].kind)
    ensures log[j].ts - log[i].ts > cfg.cooldown
  {
    assert Justified(cfg, log, j);
    forall k | 0 <= k < j && log[..j][k].Alert? ensures Justified(cfg, log[..j], k) {
      assert Justified(cfg, log, k) && log[..j][..k] == log[..k];
    }
    LastAlertLatest(cfg, log[..j], i);
  }

  /** Until somebody unlocks the user, every lock ever imposed is still honoured. */
  lemma {:induction false} LocksHonoured(log: Log, i: nat)
    requires i < |log| && log[i].Alert?
    requires forall k :: i < k < |log| ==> log[k] != Unlock
    ensures LockedUntil(log) >= log[i].until
  {
    var n := |log| - 1;
    if i < n {
      assert log[n] != Unlock;
      LocksHonoured(log[..n], i);
    }
  }

  /** Only unlocking shortens a lock. */
  lemma {:induction false} LockGrows(log: Log, more: Log)
    requires Unlock !in more
    ensures LockedUntil(log + more) >= LockedUntil(log)
    decreases |more|
  {
    if more == [] {
      assert log + more == log;
    } else {
      var n := |more| - 1;
      assert Before(log + more) == log + more[..n] && Last(log + more) == more[n];
      LockGrows(log, more[..n]);
      assert more[n] in more;
    }
  }

  /** Logins of the first n hours of the day. */
  function LoginsUpTo(log: Log, n: nat): nat {
    if n == 0 then 0 else LoginsUpTo(log, n - 1) + LoginsAt(log, n - 1)
  }

  lemma {:induction false} LoginsUpToStep(log: Log, n: nat)
    requires log != []
    ensures LoginsUpTo(log, n) == LoginsUpTo(Before(log), n) + (if Last(log).Success? && Last(log).hour < n then 1 else 0)
  {
    if n > 0 { LoginsUpToStep(log, n - 1); }
  }

  /** The hours of the day account for every login. */
  lemma {:induction false} HoursAccount(log: Log)
    ensures LoginsUpTo(log, 24) == Logins(log)
  {
    if log == [] {
      NoLogins(24);
    } else {
      LoginsUpToStep(log, 24);
      HoursAccount(Before(log));
    }
  }

  lemma {:induction false} NoLogins(n: nat)
    ensures LoginsUpTo([], n) == 0
  {
    if n > 0 { NoLogins(n - 1); }
  }
}
