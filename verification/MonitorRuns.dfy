/** Whole runs of the reference monitor: any events of one user, in any order and on any clock. */
module MonitorRuns {
  import opened Octets
  import opened MonitorHistory

  datatype Event =
    | Login(ts: int, hour: Hour)
    | FailedLogin(ts: int)
    | Operation(ts: int, decrypt: bool, count: nat, bytes: nat)
    | Unlocking

  function After(cfg: MonitorConfig, log: Log, e: Event): Log {
    match e
    case Login(ts, hour) => AfterSuccess(cfg, log, ts, hour)
    case FailedLogin(ts) => AfterFailure(cfg, log, ts)
    case Operation(ts, decrypt, count, bytes) => AfterFileOp(cfg, log, ts, decrypt, count, bytes)
    case Unlocking => log + [Unlock]
  }

  /** The history that a run leaves. */
  function History(cfg: MonitorConfig, run: seq<Event>): Log {
    if run == [] then [] else After(cfg, History(cfg, run[..|run| - 1]), run[|run| - 1])
  }

  lemma HistoryStep(cfg: MonitorConfig, run: seq<Event>, e: Event)
    ensures History(cfg, run + [e]) == After(cfg, History(cfg, run), e)
  {
    assert (run + [e])[..|run|] == run;
  }

  /** In every run every alert respects its cooldown and locks the user beyond its own time. */
  lemma {:induction false} EveryRunLegitimate(cfg: MonitorConfig, run: seq<Event>)
    ensures Legitimate(cfg, History(cfg, run))
  {
    if run != [] {
      var n := |run| - 1;
      var log := History(cfg, run[..n]);
      EveryRunLegitimate(cfg, run[..n]);
      match run[n]
      case Login(ts, hour) => AfterSuccessLegitimate(cfg, log, ts, hour);
      case FailedLogin(ts) => AfterFailureLegitimate(cfg, log, ts);
      case Operation(ts, decrypt, count, bytes) => AfterFileOpLegitimate(cfg, log, ts, decrypt, count, bytes);
      case Unlocking => LegitimateAppend(cfg, log, Unlock);
    }
  }

  /** In every run any two alerts of one group are more than the cooldown apart. */
  lemma EveryRunApart(cfg: MonitorConfig, run: seq<Event>, i: nat, j: nat)
    requires cfg.cooldown >= 0 && i < j < |History(cfg, run)|
    requires var h := History(cfg, run); h[i].Alert? && h[j].Alert? && GroupOf(h[i].kind) == GroupOf(h[j].kind)
    ensures History(cfg, run)[j].ts - History(cfg, run)[i].ts > cfg.cooldown
  {
    EveryRunLegitimate(cfg, run);
    AlertsApart(cfg, History(cfg, run), i, j);
  }

  // ---- A clock that does not go back ----

  /** The clock did not go back between the events of the run. */
  ghost predicate Steady(run: seq<Event>) {
    forall i, j :: 0 <= i < j < |run| && !run[i].Unlocking? && !run[j].Unlocking? ==> run[i].ts <= run[j].ts
  }

  ghost predicate NotAfter(run: seq<Event>, now: int) {
    forall i :: 0 <= i < |run| && !run[i].Unlocking? ==> run[i].ts <= now
  }

  ghost predicate OrderedUpTo<T>(xs: seq<T>, at: T -> int, now: int) {
    Ordered(xs, at) && forall i :: 0 <= i < |xs| ==> at(xs[i]) <= now
  }

  /** All the views the tests look at are in order, up to now. */
  ghost predicate ViewsOrdered(log: Log, now: int) {
    && OrderedUpTo(Failures(log), Stamp, now) && OrderedUpTo(Operations(log), Stamp, now)
    && OrderedUpTo(Decryptions(log), Stamp, now) && OrderedUpTo(Volumes(log), StampOf, now)
  }

  /** A test is seen by no view. */
  lemma JudgedUnseen(cfg: MonitorConfig, log: Log, k: Kind, now: int, bytes: nat)
    ensures var after := Judged(cfg, log, k, now, bytes);
      && Failures(after) == Failures(log) && Operations(after) == Operations(log)
      && Decryptions(after) == Decryptions(log) && Volumes(after) == Volumes(log)
  {
    if Triggered(cfg, log, k, now, bytes) { Unseen(log, Verdict(cfg, log, k, now)); }
    hide Triggered, Verdict, Failures, Operations, Decryptions, Volumes;
  }

  lemma FailureViews(cfg: MonitorConfig, log: Log, now: int)
    ensures var after := AfterFailure(cfg, log, now);
      && Failures(after) == Failures(log) + [now] && Operations(after) == Operations(log)
      && Decryptions(after) == Decryptions(log) && Volumes(after) == Volumes(log)
  {
    Appended(log, Failure(now));
    JudgedUnseen(cfg, log + [Failure(now)], FailedLogins, now, 0);
    hide Judged;
  }

  lemma SuccessViews(cfg: MonitorConfig, log: Log, now: int, hour: Hour)
    ensures var after := AfterSuccess(cfg, log, now, hour);
      && Failures(after) == [] && Operations(after) == Operations(log)
      && Decryptions(after) == Decryptions(log) && Volumes(after) == Volumes(log)
  {
    var begun := log + [Success(now, hour)];
    Appended(log, Success(now, hour));
    Unseen(begun, Verdict(cfg, begun, SuspiciousTime, now));
    hide Suspicious, Cooled, Verdict;
  }

  lemma OperationViews(cfg: MonitorConfig, log: Log, now: int, decrypt: bool, count: nat, bytes: nat)
    ensures var after := AfterFileOp(cfg, log, now, decrypt, count, bytes);
      var begun := log + [FileOp(now, decrypt, if count == 0 then 1 else count, bytes)];
      && Failures(after) == Failures(begun) && Operations(after) == Operations(begun)
      && Decryptions(after) == Decryptions(begun) && Volumes(after) == Volumes(begun)
  {
    hide Judged, Failures, Operations, Decryptions, Volumes;
    var begun := log + [FileOp(now, decrypt, if count == 0 then 1 else count, bytes)];
    JudgedUnseen(cfg, begun, BulkFiles, now, bytes);
    var bulk := Judged(cfg, begun, BulkFiles, now, bytes);
    JudgedUnseen(cfg, bulk, DecryptBurst, now, bytes);
    var burst := Judged(cfg, bulk, DecryptBurst, now, bytes);
    JudgedUnseen(cfg, burst, DecryptVolume, now, bytes);
    JudgedUnseen(cfg, Judged(cfg, burst, DecryptVolume, now, bytes), BehaviorDeviation, now, bytes);
  }

  lemma OrderedMore<T>(xs: seq<T>, ys: seq<T>, at: T -> int, now: int)
    requires OrderedUpTo(xs, at, now) && forall i :: 0 <= i < |ys| ==> at(ys[i]) == now
    ensures OrderedUpTo(xs + ys, at, now)
  {
    OrderedJoin(xs, ys, at, now);
  }

  /** One event at or after everything else keeps the views in order. */
  lemma ViewsStay(cfg: MonitorConfig, log: Log, e: Event, now: int)
    requires ViewsOrdered(log, now) && (!e.Unlocking? ==> e.ts == now)
    ensures ViewsOrdered(After(cfg, log, e), now)
  {
    hide OrderedUpTo, AfterFailure, AfterSuccess, AfterFileOp, Failures, Operations, Decryptions, Volumes;
    match e
    case Login(ts, hour) =>
      SuccessViews(cfg, log, ts, hour);
      Nothing(now);
    case FailedLogin(ts) =>
      FailureViews(cfg, log, ts);
      OrderedMore(Failures(log), [ts], Stamp, now);
    case Operation(ts, decrypt, count, bytes) =>
      var entry := FileOp(ts, decrypt, if count == 0 then 1 else count, bytes);
      OperationViews(cfg, log, ts, decrypt, count, bytes);
      FileOpViews(log, entry);
      OrderedMore(Operations(log), Copies(ts, entry.repeats), Stamp, now);
      OrderedMore(Decryptions(log), Copies(ts, entry.repeats), Stamp, now);
      OrderedMore(Volumes(log), [(ts, bytes)], StampOf, now);
    case Unlocking =>
      Unseen(log, Unlock);
  }

  lemma Nothing(now: int)
    ensures OrderedUpTo([], Stamp, now)
  {}

  lemma Later(log: Log, now: int, later: int)
    requires ViewsOrdered(log, now) && now <= later
    ensures ViewsOrdered(log, later)
  {
    hide Ordered, Failures, Operations, Decryptions, Volumes;
  }

  /** On a clock that does not go back, every view of every run is in order. */
  lemma {:induction false} ClockOrders(cfg: MonitorConfig, run: seq<Event>, now: int)
    requires Steady(run) && NotAfter(run, now)
    ensures ViewsOrdered(History(cfg, run), now)
  {
    if run != [] {
      var n := |run| - 1;
      var e := run[n];
      var at := if e.Unlocking? then now else e.ts;
      assert NotAfter(run[..n], at) && Steady(run[..n]);
      ClockOrders(cfg, run[..n], at);
      hide ViewsOrdered, After;
      ViewsStay(cfg, History(cfg, run[..n]), e, at);
      Later(History(cfg, run), at, now);
    }
  }

  // ---- What the program's log has to do with it ----

  /** On a clock that does not go back, the log is the reference monitor's history of the run. */
  ghost predicate Follows(cfg: MonitorConfig, log: Log, run: seq<Event>) {
    Steady(run) ==> log == History(cfg, run)
  }

  lemma SteadyStep(cfg: MonitorConfig, log: Log, run: seq<Event>, e: Event)
    requires Follows(cfg, log, run) && Steady(run + [e])
    ensures log == History(cfg, run) && History(cfg, run + [e]) == After(cfg, log, e)
    ensures !e.Unlocking? ==> ViewsOrdered(After(cfg, log, e), e.ts)
  {
    var more := run + [e];
    assert forall i :: 0 <= i < |run| ==> more[i] == run[i];
    assert more[|run|] == e;
    assert Steady(run);
    HistoryStep(cfg, run, e);
    if !e.Unlocking? {
      assert NotAfter(more, e.ts);
      ClockOrders(cfg, more, e.ts);
    }
  }

  lemma FailureFollows(cfg: MonitorConfig, log: Log, after: Log, run: seq<Event>, now: int)
    requires Follows(cfg, log, run)
    requires Ordered(Failures(log + [Failure(now)]), Stamp) ==> after == AfterFailure(cfg, log, now)
    ensures Follows(cfg, after, run + [FailedLogin(now)])
  {
    if Steady(run + [FailedLogin(now)]) {
      SteadyStep(cfg, log, run, FailedLogin(now));
      JudgedUnseen(cfg, log + [Failure(now)], FailedLogins, now, 0);
      hide Judged, Failures, Operations, Decryptions, Volumes, Ordered;
    }
  }

  lemma SuccessFollows(cfg: MonitorConfig, log: Log, after: Log, run: seq<Event>, now: int, hour: Hour)
    requires Follows(cfg, log, run) && after == AfterSuccess(cfg, log, now, hour)
    ensures Follows(cfg, after, run + [Login(now, hour)])
  {
    if Steady(run + [Login(now, hour)]) { SteadyStep(cfg, log, run, Login(now, hour)); }
  }

  lemma FileOpFollows(cfg: MonitorConfig, log: Log, after: Log, run: seq<Event>, now: int, decrypt: bool, count: nat, bytes: nat)
    requires Follows(cfg, log, run)
    requires InOrder(log + [FileOp(now, decrypt, if count == 0 then 1 else count, bytes)]) ==>
      after == AfterFileOp(cfg, log, now, decrypt, count, bytes)
    ensures Follows(cfg, after, run + [Operation(now, decrypt, count, bytes)])
  {
    var e := Operation(now, decrypt, count, bytes);
    if Steady(run + [e]) {
      SteadyStep(cfg, log, run, e);
      OperationViews(cfg, log, now, decrypt, count, bytes);
      hide AfterFileOp, Failures, Operations, Decryptions, Volumes, Ordered;
    }
  }

  lemma UnlockFollows(cfg: MonitorConfig, log: Log, run: seq<Event>)
    requires Follows(cfg, log, run)
    ensures Follows(cfg, log + [Unlock], run + [Unlocking])
  {
    if Steady(run + [Unlocking]) { SteadyStep(cfg, log, run, Unlocking); }
  }
}
