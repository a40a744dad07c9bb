/**
 What a completed sweep of `coord/board_doctor.py` decides about each row and leaves in its counter,
 told by the row and by the counters before the sweep.
 */
module RowVerdicts {
  import opened Common
  import opened BoardDoctor
  import opened Convergence

  /** Is there a counter for this cause of this row? */
  predicate Counted(s: Counters, row: Row) {
    row.key in s && s[row.key].cause == row.cause
  }

  /** How often the row has been seen stuck on this cause, this time included. */
  function Seen(s: Counters, row: Row): nat {
    if Counted(s, row) then s[row.key].count + 1 else 1
  }

  /** Nobody has been alerted about this cause of this row yet. */
  predicate Unescalated(s: Counters, row: Row) {
    !Counted(s, row) || !s[row.key].escalated
  }

  /** An alert is due: there was none, nobody knows when, or it was long enough ago. */
  predicate Due(s: Counters, row: Row, now: real) {
    || Unescalated(s, row) || s[row.key].lastAlert == None
    || now >= s[row.key].lastAlert.value + s[row.key].backoff * 3600.0
  }

  predicate OnAutoPath(cfg: Config, s: Counters, row: Row) {
    !row.suppressed && !row.deferred && cfg.tierOf(row.cause) == AutoTier && Seen(s, row) < cfg.limit
  }

  predicate OnAlertPath(cfg: Config, s: Counters, row: Row) {
    !row.suppressed && !row.deferred && (cfg.tierOf(row.cause) == AlertTier || Seen(s, row) >= cfg.limit)
  }

  // ── the three ways a row can go ────────────────────────────────────────────

  /** A counter that was there keeps its escalation and clock; a new one starts at one hour. */
  ghost predicate KeepsClock(s: Counters, row: Row, c: Counter) {
    if Counted(s, row)
    then c.escalated == s[row.key].escalated && c.lastAlert == s[row.key].lastAlert && c.backoff == s[row.key].backoff
    else !c.escalated && c.lastAlert == None && c.backoff == 1.0
  }

  /** The first alert starts the clock at one hour; every other one doubles it, up to a day. */
  ghost predicate StartsClock(s: Counters, row: Row, now: real, c: Counter) {
    && c.escalated && c.lastAlert == Some(now)
    && c.backoff == (if Unescalated(s, row) then 1.0 else if s[row.key].backoff * 2.0 < 24.0 then s[row.key].backoff * 2.0 else 24.0)
  }

  /** On the alert path: an alert is sent if and only if it is due, can be sent, and is confirmed. */
  ghost predicate AlertVerdict(cfg: Config, s: Counters, row: Row, now: real, d: Decision, c: Counter) {
    if !Due(s, row, now) then d.action == ConvergedNoop && d.escalated && KeepsClock(s, row, c)
    else if !cfg.alerts then d.action == NoDispatcher && !d.escalated && KeepsClock(s, row, c)
    else match row.alert
      case Confirmed => d.action == AlertSent && d.escalated && StartsClock(s, row, now, c)
      case Skipped => d.action == AlertSkipped && !d.escalated && KeepsClock(s, row, c)
      case Unconfirmed => d.action == AlertFailed && !d.escalated && KeepsClock(s, row, c)
  }

  /** On the auto path: the dispatcher is called exactly when there is one, and its answer is reported. */
  ghost predicate AutoVerdict(cfg: Config, s: Counters, row: Row, d: Decision, c: Counter) {
    && KeepsClock(s, row, c) && d.escalated == c.escalated
    && d.action == (if row.cause !in cfg.dispatchers then NoDispatcher
                    else if row.auto == Performed then AutoDispatch else AutoNoop)
  }

  /** The decision `d` about a row that is acted on, and its counter `c` afterwards. */
  ghost predicate Verdict(cfg: Config, s: Counters, row: Row, now: real, d: Decision, c: Counter) {
    && d.key == row.key && d.cause == row.cause && d.tier == cfg.tierOf(row.cause)
    && d.count == Seen(s, row) == c.count && c.cause == row.cause
    && (OnAutoPath(cfg, s, row) ==> AutoVerdict(cfg, s, row, d, c))
    && (OnAlertPath(cfg, s, row) ==> AlertVerdict(cfg, s, row, now, d, c))
  }

  /** A suppressed or deferred row is reported as such, with what it counted and whether it was escalated. */
  ghost predicate Mention(cfg: Config, s: Counters, row: Row, d: Decision) {
    && d.key == row.key && d.cause == row.cause && d.tier == cfg.tierOf(row.cause)
    && d.action == (if row.suppressed then SuppressedBaselineRed else Deferred)
    && (if row.key in s then d.count == s[row.key].count && d.escalated == s[row.key].escalated
        else d.count == 0 && !d.escalated)
  }

  /** What becomes of a row of a sweep: the decision, its counter, and whether its dispatcher was called. */
  ghost predicate Handled(cfg: Config, s: Counters, row: Row, now: real, d: Decision, after: Option<Counter>, calls: nat) {
    if row.suppressed || row.deferred then Mention(cfg, s, row, d) && after == Lookup(s, row.key) && calls == 0
    else
      && after.Some? && Verdict(cfg, s, row, now, d, after.value)
      && calls == (if OnAutoPath(cfg, s, row) && row.cause in cfg.dispatchers then 1 else 0)
  }

  lemma AlertIsDecided(cfg: Config, w: Walk, row: Row, now: real)
    requires !w.crashed && OnAlertPath(cfg, w.counters, row)
    ensures var t := Step(cfg, w, row, now, false);
            && !t.crashed && |t.report| == |w.report| + 1 && t.calls == w.calls && row.key in t.counters
            && AlertVerdict(cfg, w.counters, row, now, t.report[|w.report|], t.counters[row.key])
  {
  }

  lemma AutoIsDecided(cfg: Config, w: Walk, row: Row, now: real)
    requires !w.crashed && OnAutoPath(cfg, w.counters, row) && !Step(cfg, w, row, now, false).crashed
    ensures var t := Step(cfg, w, row, now, false);
            && |t.report| == |w.report| + 1 && row.key in t.counters
            && AutoVerdict(cfg, w.counters, row, t.report[|w.report|], t.counters[row.key])
            && t.calls == w.calls + (if row.cause in cfg.dispatchers then [row.key] else [])
  {
  }

  lemma StepDecides(cfg: Config, w: Walk, row: Row, now: real)
    requires !Step(cfg, w, row, now, false).crashed
    ensures var t := Step(cfg, w, row, now, false);
            && |t.report| == |w.report| + 1 && Times(t.calls, row.key) >= Times(w.calls, row.key)
            && Handled(cfg, w.counters, row, now, t.report[|w.report|], Lookup(t.counters, row.key),
                       Times(t.calls, row.key) - Times(w.calls, row.key))
  {
    if OnAlertPath(cfg, w.counters, row) {
      AlertIsDecided(cfg, w, row, now);
    } else if OnAutoPath(cfg, w.counters, row) {
      AutoIsDecided(cfg, w, row, now);
    }
  }

  // ── one sweep ──────────────────────────────────────────────────────────────

  ghost predicate Completes(cfg: Config, s: Counters, w: Sweep) {
    !w.dry && !WalkRows(cfg, s, w.rows, w.now, false).crashed
  }

  predicate Once(rows: seq<Row>, i: nat)
    requires i < |rows|
  {
    forall j :: 0 <= j < |rows| && j != i ==> rows[j].key != rows[i].key
  }

  lemma OtherRowsCallOthers(cfg: Config, w: Walk, row: Row, now: real, k: Key)
    requires row.key != k
    ensures Times(Step(cfg, w, row, now, false).calls, k) == Times(w.calls, k)
  {
  }

  lemma {:induction false} CallsAreSettled(cfg: Config, s: Counters, rows: seq<Row>, now: real, i: nat, k: Key)
    requires i <= |rows| && forall j :: i <= j < |rows| ==> rows[j].key != k
    ensures Times(WalkRows(cfg, s, rows, now, false).calls, k) == Times(WalkRows(cfg, s, rows[..i], now, false).calls, k)
    decreases |rows|
  {
    if i == |rows| {
      assert rows[..i] == rows;
    } else {
      var init, last := rows[..|rows| - 1], rows[|rows| - 1];
      assert init[..i] == rows[..i];
      CallsAreSettled(cfg, s, init, now, i, k);
      OtherRowsCallOthers(cfg, WalkRows(cfg, s, init, now, false), last, now, k);
    }
  }

  lemma {:induction false} ReportIsPerRow(cfg: Config, s: Counters, rows: seq<Row>, now: real)
    requires !WalkRows(cfg, s, rows, now, false).crashed
    ensures |WalkRows(cfg, s, rows, now, false).report| == |rows|
    decreases |rows|
  {
    if rows != [] {
      ReportIsPerRow(cfg, s, rows[..|rows| - 1], now);
    }
  }

  lemma RowIsDecided(cfg: Config, s: Counters, rows: seq<Row>, now: real, i: nat)
    requires i < |rows| && Once(rows, i) && !WalkRows(cfg, s, rows[..i + 1], now, false).crashed
    ensures var walk := WalkRows(cfg, s, rows[..i + 1], now, false);
            && |walk.report| == i + 1
            && Handled(cfg, s, rows[i], now, walk.report[i], Lookup(walk.counters, rows[i].key), Times(walk.calls, rows[i].key))
  {
    var row, before, walk := rows[i], WalkRows(cfg, s, rows[..i], now, false), WalkRows(cfg, s, rows[..i + 1], now, false);
    assert rows[..i + 1][..i] == rows[..i] && rows[..i + 1][i] == row;
    OthersKeepTheirCounter(cfg, s, rows[..i], now, row.key);
    CallsAreSettled(cfg, s, rows[..i], now, 0, row.key);
    StepDecides(cfg, before, row, now);
    ReportIsPerRow(cfg, s, rows[..i + 1], now);
    HandledAlike(cfg, before.counters, s, row, now, walk.report[i], Lookup(walk.counters, row.key), Times(walk.calls, row.key));
  }

  /** In a completed real sweep every row is handled by what it and the counters before the sweep say. */
  lemma SweepDecides(cfg: Config, s: Counters, w: Sweep, i: nat)
    requires Completes(cfg, s, w) && i < |w.rows| && Once(w.rows, i)
    ensures var walk := WalkRows(cfg, s, w.rows, w.now, false);
            && |walk.report| == |w.rows|
            && Handled(cfg, s, w.rows[i], w.now, walk.report[i], Lookup(CountersAfter(cfg, s, w), w.rows[i].key),
                       Times(CallsOf(cfg, s, w), w.rows[i].key))
  {
    RestOfSweep(cfg, s, w, i);
    RowIsDecided(cfg, s, w.rows, w.now, i);
  }

  /** What is settled about a row once it has been handled: the rest of the sweep changes nothing in it. */
  lemma RestOfSweep(cfg: Config, s: Counters, w: Sweep, i: nat)
    requires Completes(cfg, s, w) && i < |w.rows| && Once(w.rows, i)
    ensures var walk, sofar := WalkRows(cfg, s, w.rows, w.now, false), WalkRows(cfg, s, w.rows[..i + 1], w.now, false);
            && !sofar.crashed && |walk.report| == |w.rows| && |sofar.report| == i + 1 && walk.report[i] == sofar.report[i]
            && Lookup(CountersAfter(cfg, s, w), w.rows[i].key) == Lookup(sofar.counters, w.rows[i].key)
            && Times(CallsOf(cfg, s, w), w.rows[i].key) == Times(sofar.calls, w.rows[i].key)
  {
    var k := w.rows[i].key;
    CounterIsSettled(cfg, s, w.rows, w.now, i + 1, k);
    ReportGrows(cfg, s, w.rows, w.now, i + 1);
    CallsAreSettled(cfg, s, w.rows, w.now, i + 1, k);
    ReportIsPerRow(cfg, s, w.rows, w.now);
    ReportIsPerRow(cfg, s, w.rows[..i + 1], w.now);
    assert Present(w.rows, k);
    ClearingKeepsPresent(cfg, s, w, k);
  }

  /** Only the row's own counter matters. */
  lemma HandledAlike(cfg: Config, s: Counters, t: Counters, row: Row, now: real, d: Decision, after: Option<Counter>, calls: nat)
    requires Lookup(s, row.key) == Lookup(t, row.key) && Handled(cfg, s, row, now, d, after, calls)
    ensures Handled(cfg, t, row, now, d, after, calls)
  {
  }

  /** A row that is not in a sweep is forgotten by a completed real one that clears, and kept as it is by any other. */
  lemma AbsentRowGoesExactly(cfg: Config, s: Counters, w: Sweep, k: Key)
    requires !Present(w.rows, k) && k.key != ""
    ensures Lookup(CountersAfter(cfg, s, w), k) ==
            if !w.dry && w.clear && !WalkRows(cfg, s, w.rows, w.now, false).crashed then None else Lookup(s, k)
  {
    DryRunChangesNothing(cfg, s, w.rows, w.now);
    OthersKeepTheirCounter(cfg, s, w.rows, w.now, k);
    var walk := WalkRows(cfg, s, w.rows, w.now, w.dry);
    if k in walk.touched {
      TouchedIsPresent(cfg, s, w.rows, w.now, w.dry, k);
    }
  }

  // ── an alert is tried until it is confirmed ────────────────────────────────

  /** Row `i` is on the alert path without having been alerted about, and the sweep gets to its end. */
  ghost predicate Tries(cfg: Config, s: Counters, w: Sweep, i: nat) {
    && Completes(cfg, s, w) && i < |w.rows| && Once(w.rows, i) && cfg.alerts
    && OnAlertPath(cfg, s, w.rows[i]) && Unescalated(s, w.rows[i])
  }

  /** The first alert goes out in the very sweep in which the row gets to the alert path, and starts the clock. */
  lemma FirstAlertIsSent(cfg: Config, s: Counters, w: Sweep, i: nat)
    requires Tries(cfg, s, w, i) && w.rows[i].alert == Confirmed
    ensures Alerted(CountersAfter(cfg, s, w), w.rows[i].key, w.rows[i].cause, w.now, BACKOFF_INITIAL)
    ensures var report := WalkRows(cfg, s, w.rows, w.now, false).report;
            |report| == |w.rows| && report[i].key == w.rows[i].key && report[i].action == AlertSent && report[i].escalated
  {
    SweepDecides(cfg, s, w, i);
  }

  /** An alert that was skipped or not confirmed escalates nothing; the row stays on the alert path, and due. */
  lemma UnsentAlertStaysDue(cfg: Config, s: Counters, w: Sweep, i: nat, row: Row)
    requires Tries(cfg, s, w, i) && w.rows[i].alert != Confirmed
    requires row.key == w.rows[i].key && row.cause == w.rows[i].cause && !row.suppressed && !row.deferred
    ensures var report := WalkRows(cfg, s, w.rows, w.now, false).report;
            |report| == |w.rows| && !report[i].escalated
            && report[i].action == if w.rows[i].alert == Skipped then AlertSkipped else AlertFailed
    ensures OnAlertPath(cfg, CountersAfter(cfg, s, w), row) && Unescalated(CountersAfter(cfg, s, w), row)
  {
    SweepDecides(cfg, s, w, i);
  }

  /** Sweep after sweep, complete and with `k` stuck on `c` and not passed over, tries and fails to alert. */
  ghost predicate AllFail(cfg: Config, s: Counters, ws: seq<Sweep>, k: Key, c: string)
    decreases |ws|
  {
    ws == [] ||
    ((exists i: nat :: i < |ws[0].rows| && Stuck(ws[0], i, k, c) && ws[0].rows[i].alert != Confirmed)
     && Completes(cfg, s, ws[0]) && AllFail(cfg, CountersAfter(cfg, s, ws[0]), ws[1..], k, c))
  }

  predicate Stuck(w: Sweep, i: nat, k: Key, c: string)
    requires i < |w.rows|
  {
    w.rows[i].key == k && w.rows[i].cause == c && !w.rows[i].suppressed && !w.rows[i].deferred && Once(w.rows, i)
  }

  /**
   Over every run: however often the alert of a row on the alert path has failed, the next sweep in
   which it is confirmed sends it and starts the clock.
   */
  lemma {:induction false} AlertIsTriedUntilConfirmed(cfg: Config, s: Counters, ws: seq<Sweep>, w: Sweep, i: nat)
    requires i < |w.rows| && Stuck(w, i, w.rows[i].key, w.rows[i].cause) && w.rows[i].alert == Confirmed && cfg.alerts
    requires OnAlertPath(cfg, s, w.rows[i]) && Unescalated(s, w.rows[i])
    requires AllFail(cfg, s, ws, w.rows[i].key, w.rows[i].cause) && Completes(cfg, AfterAll(cfg, s, ws), w)
    ensures Alerted(CountersAfter(cfg, AfterAll(cfg, s, ws), w), w.rows[i].key, w.rows[i].cause, w.now, BACKOFF_INITIAL)
    ensures var report := WalkRows(cfg, AfterAll(cfg, s, ws), w.rows, w.now, false).report;
            |report| == |w.rows| && report[i].action == AlertSent
    decreases |ws|
  {
    if ws == [] {
      FirstAlertIsSent(cfg, s, w, i);
    } else {
      var j: nat :| j < |ws[0].rows| && Stuck(ws[0], j, w.rows[i].key, w.rows[i].cause) && ws[0].rows[j].alert != Confirmed;
      UnsentAlertStaysDue(cfg, s, ws[0], j, w.rows[i]);
      AlertIsTriedUntilConfirmed(cfg, CountersAfter(cfg, s, ws[0]), ws[1..], w, i);
    }
  }
}
