/**
 What the convergence ladder of `coord/board_doctor.py` promises over any run of sweeps.
 */
module Convergence {
  import opened Common
  import opened BoardDoctor

  function Min(a: int, b: int): int {
    if a < b then a else b
  }

  /** How often the auto action of cause `c` can have been tried by the time row `k` counts what it counts. */
  function Spent(cfg: Config, s: Counters, k: Key, c: string): int {
    if cfg.limit > 1 && k in s && s[k].cause == c then Min(s[k].count, cfg.limit - 1) else 0
  }

  predicate Acts(cfg: Config, c: string) {
    cfg.tierOf(c) == AutoTier && c in cfg.dispatchers
  }

  function Times(calls: seq<Key>, k: Key): nat {
    multiset(calls)[k]
  }

  predicate OneCause(rows: seq<Row>, k: Key, c: string) {
    forall i :: 0 <= i < |rows| && rows[i].key == k ==> rows[i].cause == c
  }

  predicate Present(rows: seq<Row>, k: Key) {
    exists i :: 0 <= i < |rows| && rows[i].key == k
  }

  // ── one sweep ──────────────────────────────────────────────────────────────

  lemma StepSpends(cfg: Config, w: Walk, row: Row, now: real, dry: bool, k: Key, c: string)
    requires row.key == k ==> row.cause == c
    ensures var t := Step(cfg, w, row, now, dry);
            Times(t.calls, k) - Times(w.calls, k)
            == if Acts(cfg, c) then Spent(cfg, t.counters, k, c) - Spent(cfg, w.counters, k, c) else 0
    ensures Spent(cfg, Step(cfg, w, row, now, dry).counters, k, c) >= Spent(cfg, w.counters, k, c)
  {
  }

  lemma {:induction false} WalkSpends(cfg: Config, s: Counters, rows: seq<Row>, now: real, dry: bool, k: Key, c: string)
    requires OneCause(rows, k, c)
    ensures var t := WalkRows(cfg, s, rows, now, dry);
            Times(t.calls, k) == if Acts(cfg, c) then Spent(cfg, t.counters, k, c) - Spent(cfg, s, k, c) else 0
    decreases |rows|
  {
    if rows != [] {
      var n := |rows| - 1;
      WalkSpends(cfg, s, rows[..n], now, dry, k, c);
      StepSpends(cfg, WalkRows(cfg, s, rows[..n], now, dry), rows[n], now, dry, k, c);
    }
  }

  lemma StepTouches(cfg: Config, w: Walk, row: Row, now: real, dry: bool)
    ensures var t := Step(cfg, w, row, now, dry);
            && t.touched <= w.touched + {row.key} && (!t.crashed ==> !w.crashed && t.touched == w.touched + {row.key})
  {
  }

  lemma PresentThere(rows: seq<Row>, n: nat, k: Key)
    requires n < |rows| && (Present(rows[..n], k) || rows[n].key == k)
    ensures Present(rows, k)
  {
    if rows[n].key != k {
      var i :| 0 <= i < n && rows[..n][i].key == k;
      assert rows[i].key == k;
    }
  }

  lemma {:induction false} TouchedIsPresent(cfg: Config, s: Counters, rows: seq<Row>, now: real, dry: bool, k: Key)
    requires k in WalkRows(cfg, s, rows, now, dry).touched
    ensures Present(rows, k)
    decreases |rows|
  {
    var n := |rows| - 1;
    var before := WalkRows(cfg, s, rows[..n], now, dry);
    StepTouches(cfg, before, rows[n], now, dry);
    if k in before.touched {
      TouchedIsPresent(cfg, s, rows[..n], now, dry, k);
    }
    PresentThere(rows, n, k);
  }

  lemma {:induction false} PresentIsTouched(cfg: Config, s: Counters, rows: seq<Row>, now: real, dry: bool)
    requires !WalkRows(cfg, s, rows, now, dry).crashed
    ensures forall i :: 0 <= i < |rows| ==> rows[i].key in WalkRows(cfg, s, rows, now, dry).touched
    decreases |rows|
  {
    if rows != [] {
      var n := |rows| - 1;
      StepTouches(cfg, WalkRows(cfg, s, rows[..n], now, dry), rows[n], now, dry);
      PresentIsTouched(cfg, s, rows[..n], now, dry);
      assert forall i :: 0 <= i < n ==> rows[..n][i] == rows[i];
    }
  }

  /** Row `k` is stuck on `c` throughout: in every sweep that would otherwise clear it, it is there. */
  predicate StaysStuck(w: Sweep, k: Key, c: string) {
    OneCause(w.rows, k, c) && (!w.dry && w.clear && k.key != "" ==> Present(w.rows, k))
  }

  lemma ClearingKeepsPresent(cfg: Config, s: Counters, w: Sweep, k: Key)
    requires !w.dry && w.clear && k.key != "" ==> Present(w.rows, k)
    ensures Lookup(CountersAfter(cfg, s, w), k) == Lookup(WalkRows(cfg, s, w.rows, w.now, w.dry).counters, k)
  {
    if !WalkRows(cfg, s, w.rows, w.now, w.dry).crashed {
      PresentIsTouched(cfg, s, w.rows, w.now, w.dry);
    }
  }

  lemma SweepSpends(cfg: Config, s: Counters, w: Sweep, k: Key, c: string)
    requires StaysStuck(w, k, c)
    ensures Times(CallsOf(cfg, s, w), k)
         == if Acts(cfg, c) then Spent(cfg, CountersAfter(cfg, s, w), k, c) - Spent(cfg, s, k, c) else 0
  {
    WalkSpends(cfg, s, w.rows, w.now, w.dry, k, c);
    ClearingKeepsPresent(cfg, s, w, k);
  }

  // ── any run of sweeps ──────────────────────────────────────────────────────

  function AfterAll(cfg: Config, s: Counters, ws: seq<Sweep>): Counters
    decreases |ws|
  {
    if ws == [] then s else AfterAll(cfg, CountersAfter(cfg, s, ws[0]), ws[1..])
  }

  function AllCalls(cfg: Config, s: Counters, ws: seq<Sweep>): seq<Key>
    decreases |ws|
  {
    if ws == [] then [] else CallsOf(cfg, s, ws[0]) + AllCalls(cfg, CountersAfter(cfg, s, ws[0]), ws[1..])
  }

  predicate AllStayStuck(ws: seq<Sweep>, k: Key, c: string) {
    forall i :: 0 <= i < |ws| ==> StaysStuck(ws[i], k, c)
  }

  lemma {:induction false} RunSpends(cfg: Config, s: Counters, ws: seq<Sweep>, k: Key, c: string)
    requires AllStayStuck(ws, k, c)
    ensures Times(AllCalls(cfg, s, ws), k)
         == if Acts(cfg, c) then Spent(cfg, AfterAll(cfg, s, ws), k, c) - Spent(cfg, s, k, c) else 0
    decreases |ws|
  {
    if ws != [] {
      SweepSpends(cfg, s, ws[0], k, c);
      RunSpends(cfg, CountersAfter(cfg, s, ws[0]), ws[1..], k, c);
      assert Times(AllCalls(cfg, s, ws), k)
          == Times(CallsOf(cfg, s, ws[0]), k) + Times(AllCalls(cfg, CountersAfter(cfg, s, ws[0]), ws[1..]), k);
    }
  }

  /**
   Over any run of sweeps, dry or real, completed or cut short, with suppressed and deferred ones
   between: while a row stays stuck on one cause its auto dispatcher is called `limit - 1` times
   at the most (never, with a limit below 1).
   */
  lemma AutoActionsConverge(cfg: Config, s: Counters, ws: seq<Sweep>, k: Key, c: string)
    requires AllStayStuck(ws, k, c)
    ensures Times(AllCalls(cfg, s, ws), k) <= (if cfg.limit >= 1 then cfg.limit - 1 else 0)
  {
    RunSpends(cfg, s, ws, k, c);
  }

  // ── rows that are passed over ──────────────────────────────────────────────

  predicate OnlyPassedOver(rows: seq<Row>, k: Key) {
    forall i :: 0 <= i < |rows| && rows[i].key == k ==> PassedOver(rows[i])
  }

  lemma {:induction false} WalkKeepsPassedOver(cfg: Config, s: Counters, rows: seq<Row>, now: real, dry: bool, k: Key)
    requires OnlyPassedOver(rows, k)
    ensures Lookup(WalkRows(cfg, s, rows, now, dry).counters, k) == Lookup(s, k)
    decreases |rows|
  {
    if rows != [] {
      WalkKeepsPassedOver(cfg, s, rows[..|rows| - 1], now, dry, k);
    }
  }

  /** A suppressed or deferred row keeps its counter and escalation exactly. */
  lemma PassedOverKeepsCounter(cfg: Config, s: Counters, w: Sweep, k: Key)
    requires OnlyPassedOver(w.rows, k) && Present(w.rows, k)
    ensures Lookup(CountersAfter(cfg, s, w), k) == Lookup(s, k)
  {
    WalkKeepsPassedOver(cfg, s, w.rows, w.now, w.dry, k);
    ClearingKeepsPresent(cfg, s, w, k);
  }

  // ── a red base ─────────────────────────────────────────────────────────────

  const CAUSE_BASELINE_RED := "baseline-red"

  /** `baseline_red_rows`: one row per repository, whatever its streak. */
  function BaselineRedRows(repos: seq<string>): seq<Row> {
    seq(|repos|, i requires 0 <= i < |repos| =>
      Row(Key("baseline-red", repos[i] + "#0"), CAUSE_BASELINE_RED, false, false, Noop, Unconfirmed))
  }

  /** The suppression step of `collect_rows`; `repoOf` reads the repository out of a row key. */
  function Suppress(rows: seq<Row>, repoOf: string -> Option<string>, blocked: set<string>): seq<Row> {
    seq(|rows|, i requires 0 <= i < |rows| =>
      var repo := repoOf(rows[i].key.key);
      if repo.Some? && repo.value in blocked then rows[i].(suppressed := true) else rows[i])
  }

  function CollectedRows(rows: seq<Row>, repoOf: string -> Option<string>, blocked: seq<string>): seq<Row> {
    if blocked == [] then rows
    else Suppress(rows, repoOf, set r | r in blocked) + BaselineRedRows(blocked)
  }

  /** While the base of its repository is red, every row of the two queues keeps its counter and escalation. */
  lemma RedBaseKeepsCounters(cfg: Config, s: Counters, rows: seq<Row>, repoOf: string -> Option<string>,
                             blocked: seq<string>, now: real, dry: bool, clear: bool, i: nat)
    requires i < |rows| && rows[i].key.queue != "baseline-red"
    requires repoOf(rows[i].key.key).Some? && repoOf(rows[i].key.key).value in blocked
    ensures Lookup(CountersAfter(cfg, s, Sweep(CollectedRows(rows, repoOf, blocked), now, dry, clear)), rows[i].key)
         == Lookup(s, rows[i].key)
  {
    var all, k := CollectedRows(rows, repoOf, blocked), rows[i].key;
    assert all[i].key == k;
    PassedOverKeepsCounter(cfg, s, Sweep(all, now, dry, clear), k);
  }

  // ── dry runs ───────────────────────────────────────────────────────────────

  /** A dry run changes no counter and calls no dispatcher. */
  lemma {:induction false} DryRunChangesNothing(cfg: Config, s: Counters, rows: seq<Row>, now: real)
    ensures var t := WalkRows(cfg, s, rows, now, true);
            t.counters == s && t.calls == [] && !t.crashed && |t.report| == |rows|
    ensures forall clear :: CountersAfter(cfg, s, Sweep(rows, now, true, clear)) == s
  {
    if rows != [] {
      DryRunChangesNothing(cfg, s, rows[..|rows| - 1], now);
    }
  }

  predicate DistinctKeys(rows: seq<Row>) {
    forall i, j :: 0 <= i < j < |rows| ==> rows[i].key != rows[j].key
  }

  lemma {:induction false} OthersKeepTheirCounter(cfg: Config, s: Counters, rows: seq<Row>, now: real, k: Key)
    requires forall i :: 0 <= i < |rows| ==> rows[i].key != k
    ensures Lookup(WalkRows(cfg, s, rows, now, false).counters, k) == Lookup(s, k)
    decreases |rows|
  {
    if rows != [] {
      OthersKeepTheirCounter(cfg, s, rows[..|rows| - 1], now, k);
    }
  }

  predicate SameVerdict(d: Decision, e: Decision) {
    d.key == e.key && d.cause == e.cause && d.tier == e.tier && d.count == e.count
  }

  predicate SameVerdicts(dry: seq<Decision>, wet: seq<Decision>) {
    |wet| <= |dry| && forall i :: 0 <= i < |wet| ==> SameVerdict(dry[i], wet[i])
  }

  /** A dry run reports per row the tier and the count of the real sweep run next, for distinct row keys. */
  lemma {:induction false} DryRunForetells(cfg: Config, s: Counters, rows: seq<Row>, now: real, later: real)
    requires DistinctKeys(rows)
    ensures var dry, wet := WalkRows(cfg, s, rows, now, true), WalkRows(cfg, s, rows, later, false);
            SameVerdicts(dry.report, wet.report) && (!wet.crashed ==> |wet.report| == |rows|)
    decreases |rows|
  {
    if rows != [] {
      var n := |rows| - 1;
      DryRunForetells(cfg, s, rows[..n], now, later);
      DryRunChangesNothing(cfg, s, rows[..n], now);
      OthersKeepTheirCounter(cfg, s, rows[..n], later, rows[n].key);
      var dry, wet := WalkRows(cfg, s, rows[..n], now, true), WalkRows(cfg, s, rows[..n], later, false);
      StepForetells(cfg, dry, wet, rows[n], now, later);
    }
  }

  /** One more row that both walks find at the same counter. */
  lemma StepForetells(cfg: Config, dry: Walk, wet: Walk, row: Row, now: real, later: real)
    requires !dry.crashed && SameVerdicts(dry.report, wet.report) && (!wet.crashed ==> |wet.report| == |dry.report|)
    requires Lookup(wet.counters, row.key) == Lookup(dry.counters, row.key)
    ensures var d, e := Step(cfg, dry, row, now, true), Step(cfg, wet, row, later, false);
            && SameVerdicts(d.report, e.report)
            && (!e.crashed ==> |e.report| == |d.report|)
  {
    var d, e := Step(cfg, dry, row, now, true), Step(cfg, wet, row, later, false);
    assert |d.report| == |dry.report| + 1;
    if |e.report| == |d.report| {
      assert SameVerdict(d.report[|dry.report|], e.report[|dry.report|]);
    }
  }

  /** With a repeated key it need not: the real sweep counts the row twice. */
  lemma RepeatedKeyMisleadsDryRun(cfg: Config, k: Key, c: string) returns (rows: seq<Row>)
    requires cfg.tierOf(c) == AlertTier && !cfg.alerts
    ensures !SameVerdicts(WalkRows(cfg, map[], rows, 0.0, true).report, WalkRows(cfg, map[], rows, 0.0, false).report)
  {
    var row := Row(k, c, false, false, Noop, Unconfirmed);
    rows := [row, row];
    assert rows[..1] == [row] && [row][..0] == [];
    var wet := WalkRows(cfg, map[], rows, 0.0, false);
    assert WalkRows(cfg, map[], [], 0.0, true).counters == map[];
    assert |WalkRows(cfg, map[], [row], 0.0, false).report| == 1;
    assert wet.report[1].count == 2;
    DryRunChangesNothing(cfg, map[], [row], 0.0);
    assert WalkRows(cfg, map[], rows, 0.0, true).report[1].count == 1;
  }

  // ── rows that vanish ───────────────────────────────────────────────────────

  /** After a completed real sweep every tracked row was present in it. */
  lemma TrackedWasPresent(cfg: Config, s: Counters, w: Sweep, k: Key)
    requires !w.dry && w.clear && !WalkRows(cfg, s, w.rows, w.now, w.dry).crashed
    requires k in CountersAfter(cfg, s, w) && k.key != ""
    ensures Present(w.rows, k)
  {
    TouchedIsPresent(cfg, s, w.rows, w.now, w.dry, k);
  }

  /** Count 1, and escalated only if this very decision sent an alert. */
  predicate StartsOver(d: Decision) {
    d.count == 1 && (d.escalated ==> d.action == AlertSent)
  }

  /** A row that was absent from a completed real sweep and returns starts over, at count 1 and un-escalated. */
  lemma VanishedRowStartsOver(cfg: Config, s: Counters, gone: Sweep, back: Sweep, i: nat)
    requires !gone.dry && gone.clear && !WalkRows(cfg, s, gone.rows, gone.now, gone.dry).crashed
    requires i < |back.rows| && !Present(gone.rows, back.rows[i].key) && back.rows[i].key.key != ""
    requires forall j :: 0 <= j < i ==> back.rows[j].key != back.rows[i].key
    requires !PassedOver(back.rows[i]) && !back.dry
    ensures var row, mid := back.rows[i], CountersAfter(cfg, s, gone);
            && Lookup(mid, row.key) == None
            && (var walk := WalkRows(cfg, mid, back.rows[..i + 1], back.now, false);
                !walk.crashed ==> StartsOver(walk.report[|walk.report| - 1]))
  {
    var row, mid := back.rows[i], CountersAfter(cfg, s, gone);
    if row.key in mid {
      TrackedWasPresent(cfg, s, gone, row.key);
    }
    assert back.rows[..i + 1][..i] == back.rows[..i];
    OthersKeepTheirCounter(cfg, mid, back.rows[..i], back.now, row.key);
  }

  // ── alerts back off ────────────────────────────────────────────────────────

  /** Row `k` is escalated for `c`, last alerted at `t`, and next due `hours` later. */
  predicate Alerted(s: Counters, k: Key, c: string, t: real, hours: real) {
    k in s && s[k].cause == c && s[k].escalated && s[k].lastAlert == Some(t) && s[k].backoff == hours
  }

  predicate NoAlertFor(report: seq<Decision>, k: Key) {
    forall i :: 0 <= i < |report| && report[i].key == k ==> report[i].action != AlertSent
  }

  lemma {:induction false} WalkWaits(cfg: Config, s: Counters, rows: seq<Row>, now: real, dry: bool, k: Key, c: string,
                                     t: real, hours: real)
    requires OneCause(rows, k, c) && Alerted(s, k, c, t, hours) && now - t < hours * 3600.0
    ensures var w := WalkRows(cfg, s, rows, now, dry); Alerted(w.counters, k, c, t, hours) && NoAlertFor(w.report, k)
    decreases |rows|
  {
    if rows != [] {
      WalkWaits(cfg, s, rows[..|rows| - 1], now, dry, k, c, t, hours);
    }
  }

  /** No sweep of the run sends an alert for row `k`. */
  predicate AllQuiet(cfg: Config, s: Counters, ws: seq<Sweep>, k: Key)
    decreases |ws|
  {
    ws == [] ||
    (NoAlertFor(WalkRows(cfg, s, ws[0].rows, ws[0].now, ws[0].dry).report, k)
     && AllQuiet(cfg, CountersAfter(cfg, s, ws[0]), ws[1..], k))
  }

  /** Until the backoff has run out, no sweep of any run repeats the alert, and the clock stands as it was. */
  lemma {:induction false} AlertsWaitForBackoff(cfg: Config, s: Counters, ws: seq<Sweep>, k: Key, c: string, t: real, hours: real)
    requires AllStayStuck(ws, k, c) && Alerted(s, k, c, t, hours)
    requires forall i :: 0 <= i < |ws| ==> ws[i].now - t < hours * 3600.0
    ensures Alerted(AfterAll(cfg, s, ws), k, c, t, hours) && AllQuiet(cfg, s, ws, k)
    decreases |ws|
  {
    if ws != [] {
      var w := ws[0];
      WalkWaits(cfg, s, w.rows, w.now, w.dry, k, c, t, hours);
      ClearingKeepsPresent(cfg, s, w, k);
      AlertsWaitForBackoff(cfg, CountersAfter(cfg, s, w), ws[1..], k, c, t, hours);
    }
  }

  /** Does the row take the alert path: by its tier, or because its auto action has converged? */
  predicate TakesAlertPath(cfg: Config, row: Row, count: nat) {
    !PassedOver(row) && (cfg.tierOf(row.cause) == AlertTier || count >= cfg.limit)
  }

  function Doubled(hours: real): real {
    if hours * 2.0 < BACKOFF_CAP then hours * 2.0 else BACKOFF_CAP
  }

  lemma OtherRowsKeepCounter(cfg: Config, w: Walk, row: Row, now: real, k: Key)
    requires row.key != k
    ensures Lookup(Step(cfg, w, row, now, false).counters, k) == Lookup(w.counters, k)
  {
  }

  /** The rows from `i` on leave the counter of another row alone. */
  lemma {:induction false} CounterIsSettled(cfg: Config, s: Counters, rows: seq<Row>, now: real, i: nat, k: Key)
    requires i <= |rows| && forall j :: i <= j < |rows| ==> rows[j].key != k
    ensures Lookup(WalkRows(cfg, s, rows, now, false).counters, k) == Lookup(WalkRows(cfg, s, rows[..i], now, false).counters, k)
    decreases |rows|
  {
    if i == |rows| {
      assert rows[..i] == rows;
    } else {
      var init, last := rows[..|rows| - 1], rows[|rows| - 1];
      assert init[..i] == rows[..i];
      CounterIsSettled(cfg, s, init, now, i, k);
      OtherRowsKeepCounter(cfg, WalkRows(cfg, s, init, now, false), last, now, k);
    }
  }

  lemma StepReports(cfg: Config, w: Walk, row: Row, now: real)
    requires !Step(cfg, w, row, now, false).crashed
    ensures !w.crashed && w.report <= Step(cfg, w, row, now, false).report
  {
  }

  /** A report only grows, and a sweep that gets to its end got everywhere before. */
  lemma {:induction false} ReportGrows(cfg: Config, s: Counters, rows: seq<Row>, now: real, i: nat)
    requires i <= |rows| && !WalkRows(cfg, s, rows, now, false).crashed
    ensures !WalkRows(cfg, s, rows[..i], now, false).crashed
    ensures WalkRows(cfg, s, rows[..i], now, false).report <= WalkRows(cfg, s, rows, now, false).report
    decreases |rows|
  {
    if i == |rows| {
      assert rows[..i] == rows;
    } else {
      var init, last := rows[..|rows| - 1], rows[|rows| - 1];
      assert init[..i] == rows[..i];
      StepReports(cfg, WalkRows(cfg, s, init, now, false), last, now);
      ReportGrows(cfg, s, init, now, i);
    }
  }

  lemma DueAlertIsSent(cfg: Config, w: Walk, row: Row, now: real, t: real, hours: real)
    requires !w.crashed && Alerted(w.counters, row.key, row.cause, t, hours) && now - t >= hours * 3600.0
    requires TakesAlertPath(cfg, row, w.counters[row.key].count + 1) && cfg.alerts && row.alert == Confirmed
    ensures var u := Step(cfg, w, row, now, false);
            && !u.crashed && |u.report| == |w.report| + 1
            && u.report[|w.report|].key == row.key && u.report[|w.report|].action == AlertSent
            && Alerted(u.counters, row.key, row.cause, now, Doubled(hours))
  {
  }

  /** Once it has, the next sweep alerts again about a row on the alert path, and the wait doubles up to the cap. */
  lemma DueAlertRepeats(cfg: Config, s: Counters, w: Sweep, i: nat, t: real, hours: real)
    requires i < |w.rows| && !w.dry && !WalkRows(cfg, s, w.rows, w.now, false).crashed
    requires forall j :: 0 <= j < |w.rows| && j != i ==> w.rows[j].key != w.rows[i].key
    requires Alerted(s, w.rows[i].key, w.rows[i].cause, t, hours) && w.now - t >= hours * 3600.0
    requires TakesAlertPath(cfg, w.rows[i], s[w.rows[i].key].count + 1) && cfg.alerts && w.rows[i].alert == Confirmed
    ensures Alerted(CountersAfter(cfg, s, w), w.rows[i].key, w.rows[i].cause, w.now, Doubled(hours))
    ensures exists d :: d in WalkRows(cfg, s, w.rows, w.now, false).report
                     && d.key == w.rows[i].key && d.action == AlertSent
  {
    var row := w.rows[i];
    CounterIsSettled(cfg, s, w.rows, w.now, i + 1, row.key);
    ReportGrows(cfg, s, w.rows, w.now, i + 1);
    assert w.rows[..i + 1][..i] == w.rows[..i];
    OthersKeepTheirCounter(cfg, s, w.rows[..i], w.now, row.key);
    var before, after := WalkRows(cfg, s, w.rows[..i], w.now, false), WalkRows(cfg, s, w.rows[..i + 1], w.now, false);
    DueAlertIsSent(cfg, before, row, w.now, t, hours);
    assert after.report[|before.report|] in WalkRows(cfg, s, w.rows, w.now, false).report;
    ClearingKeepsPresent(cfg, s, w, row.key);
  }
}
