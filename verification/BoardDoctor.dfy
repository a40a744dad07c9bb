/**
 The convergence ladder of `coord/board_doctor.py`: a sweep acts on the rows that are stuck, and
 persistent per-row counters make sure it does not act on the same cause for ever.
 */
module BoardDoctor {
  import opened Common

  datatype Key = Key(queue: string, key: string)

  /** What the dispatcher of an auto action reports; it may also raise and end the sweep. */
  datatype Auto = Performed | Noop | Raised

  datatype Alert = Confirmed | Skipped | Unconfirmed

  /** A stuck row, with the answers its callbacks will give in this sweep. */
  datatype Row = Row(key: Key, cause: string, suppressed: bool, deferred: bool, auto: Auto, alert: Alert)

  datatype Tier = AutoTier | AlertTier

  datatype Config = Config(tierOf: string -> Tier, dispatchers: set<string>, alerts: bool, limit: int)

  const BACKOFF_INITIAL := 1.0
  const BACKOFF_CAP := 24.0

  /** `backoff` is in hours, `lastAlert` in seconds. */
  datatype Counter = Counter(cause: string, count: nat, escalated: bool, lastAlert: Option<real>, backoff: real)

  type Counters = map<Key, Counter>

  datatype Action =
    | SuppressedBaselineRed | Deferred | AutoDispatch | AutoNoop | NoDispatcher | ConvergedNoop
    | AlertSent | WouldAlert | AlertFailed | AlertSkipped

  datatype Decision = Decision(key: Key, cause: string, tier: Tier, action: Action, count: nat, escalated: bool)

  // ── the counters ───────────────────────────────────────────────────────────

  function Lookup(s: Counters, k: Key): Option<Counter> {
    if k in s then Some(s[k]) else None
  }

  /** `next_board_doctor_counter` */
  function NextCounter(prior: Option<Counter>, cause: string): Counter {
    if prior.Some? && prior.value.cause == cause then prior.value.(count := prior.value.count + 1)
    else Counter(cause, 1, false, None, BACKOFF_INITIAL)
  }

  /** `board_doctor_alert_due` */
  predicate AlertDue(c: Counter, now: real) {
    !c.escalated || c.lastAlert == None || now - c.lastAlert.value >= c.backoff * 3600.0
  }

  /** `mark_board_doctor_escalated` */
  function MarkEscalated(c: Counter, now: real): Counter {
    c.(escalated := true, lastAlert := Some(now),
       backoff := if !c.escalated then BACKOFF_INITIAL
                  else if c.backoff * 2.0 < BACKOFF_CAP then c.backoff * 2.0
                  else BACKOFF_CAP)
  }

  // ── one row of a sweep ─────────────────────────────────────────────────────

  /** What the alert path comes to when it is due. */
  function AlertAction(cfg: Config, row: Row, dry: bool): Action {
    if dry then (if cfg.alerts then WouldAlert else NoDispatcher)
    else if !cfg.alerts then NoDispatcher
    else match row.alert
      case Confirmed => AlertSent
      case Skipped => AlertSkipped
      case Unconfirmed => AlertFailed
  }

  /** Tier decision for a row that is neither suppressed nor deferred; `c` is its counter after this sweep's observation. */
  function RowAction(cfg: Config, row: Row, c: Counter, now: real, dry: bool): Action {
    if cfg.tierOf(row.cause) == AutoTier && c.count < cfg.limit then
      if row.cause !in cfg.dispatchers then NoDispatcher
      else if dry || row.auto == Performed then AutoDispatch
      else AutoNoop
    else if AlertDue(c, now) then AlertAction(cfg, row, dry)
    else ConvergedNoop
  }

  /** Is the auto dispatcher called for this row? */
  predicate Invokes(cfg: Config, row: Row, c: Counter) {
    cfg.tierOf(row.cause) == AutoTier && c.count < cfg.limit && row.cause in cfg.dispatchers
  }

  predicate PassedOver(row: Row) {
    row.suppressed || row.deferred
  }

  /** A sweep so far: the counters, the report, the dispatcher calls, the rows seen. */
  datatype Walk = Walk(counters: Counters, report: seq<Decision>, calls: seq<Key>, touched: set<Key>, crashed: bool)

  function PassOver(cfg: Config, w: Walk, row: Row): Walk {
    var prior := Lookup(w.counters, row.key);
    var count, escalated := if prior.Some? then prior.value.count else 0, prior.Some? && prior.value.escalated;
    var action := if row.suppressed then SuppressedBaselineRed else Deferred;
    w.(report := w.report + [Decision(row.key, row.cause, cfg.tierOf(row.cause), action, count, escalated)],
       touched := w.touched + {row.key})
  }

  function Act(cfg: Config, w: Walk, row: Row, now: real, dry: bool): Walk {
    var c := NextCounter(Lookup(w.counters, row.key), row.cause);
    var called := Invokes(cfg, row, c) && !dry;
    var action := RowAction(cfg, row, c, now, dry);
    var sent := action == AlertSent;
    var tried := action == AlertSent || action == AlertSkipped || action == AlertFailed || action == WouldAlert;
    var asked := tried || (action == NoDispatcher && !(cfg.tierOf(row.cause) == AutoTier && c.count < cfg.limit));
    var escalated := if asked then sent else c.escalated;
    var counters := if dry then w.counters else w.counters[row.key := if sent then MarkEscalated(c, now) else c];
    var calls := if called then w.calls + [row.key] else w.calls;
    if called && row.auto == Raised then Walk(counters, w.report, calls, w.touched + {row.key}, true)
    else
      Walk(counters, w.report + [Decision(row.key, row.cause, cfg.tierOf(row.cause), action, c.count, escalated)],
           calls, w.touched + {row.key}, false)
  }

  function Step(cfg: Config, w: Walk, row: Row, now: real, dry: bool): Walk {
    if w.crashed then w
    else if PassedOver(row) then PassOver(cfg, w, row)
    else Act(cfg, w, row, now, dry)
  }

  function WalkRows(cfg: Config, s: Counters, rows: seq<Row>, now: real, dry: bool): Walk {
    if rows == [] then Walk(s, [], [], {}, false)
    else Step(cfg, WalkRows(cfg, s, rows[..|rows| - 1], now, dry), rows[|rows| - 1], now, dry)
  }

  /** Rows with an empty key are never listed as tracked, so they are never cleared. */
  function ClearAbsent(s: Counters, touched: set<Key>): Counters {
    map k | k in s && (k in touched || k.key == "") :: s[k]
  }

  /** The rows whose counters a completed real sweep drops, and whose alerts it has dismissed. */
  function Dropped(w: Walk): set<Key> {
    set k | k in w.counters && k !in w.touched && k.key != ""
  }

  datatype Sweep = Sweep(rows: seq<Row>, now: real, dry: bool, clear: bool)

  function CountersAfter(cfg: Config, s: Counters, w: Sweep): Counters {
    var walk := WalkRows(cfg, s, w.rows, w.now, w.dry);
    if !w.dry && !walk.crashed && w.clear then ClearAbsent(walk.counters, walk.touched) else walk.counters
  }

  function CallsOf(cfg: Config, s: Counters, w: Sweep): seq<Key> {
    WalkRows(cfg, s, w.rows, w.now, w.dry).calls
  }

  // ── the sweep as it runs ───────────────────────────────────────────────────

  class Doctor {
    const cfg: Config
    var counters: Counters
    /** The durable decision log. */
    var log: seq<Decision>
    ghost var calls: seq<Key>

    constructor (cfg: Config, counters: Counters)
      ensures this.cfg == cfg && this.counters == counters && log == [] && calls == []
    {
      this.cfg, this.counters, this.log, this.calls := cfg, counters, [], [];
    }

    method Observe(k: Key, cause: string) returns (c: Counter)
      modifies this`counters
      ensures c == NextCounter(Lookup(old(counters), k), cause)
      ensures counters == old(counters)[k := c]
    {
      c := NextCounter(Lookup(counters, k), cause);
      counters := counters[k := c];
    }

    /** `_alert_action` */
    method TryAlert(row: Row, dry: bool, now: real) returns (escalated: bool, action: Action)
      requires row.key in counters || dry
      modifies this`counters
      ensures action == AlertAction(cfg, row, dry) && escalated == (action == AlertSent)
      ensures counters == if escalated && row.key in old(counters)
                          then old(counters)[row.key := MarkEscalated(old(counters)[row.key], now)] else old(counters)
    {
      if dry {
        return false, if cfg.alerts then WouldAlert else NoDispatcher;
      }
      if !cfg.alerts {
        return false, NoDispatcher;
      }
      match row.alert {
        case Skipped => return false, AlertSkipped;
        case Unconfirmed => return false, AlertFailed;
        case Confirmed =>
          counters := counters[row.key := MarkEscalated(counters[row.key], now)];
          return true, AlertSent;
      }
    }

    /** A row that is neither suppressed nor deferred; no decision when its dispatcher raises. */
    method ActOn(row: Row, now: real, dry: bool) returns (decision: Option<Decision>)
      modifies this`counters, this`calls
      ensures forall w: Walk :: w.counters == old(counters) && w.calls == old(calls) && !w.crashed ==>
                Act(cfg, w, row, now, dry)
                == Walk(counters, w.report + (if decision.Some? then [decision.value] else []), calls,
                        w.touched + {row.key}, decision == None)
    {
      var c;
      if dry {
        c := NextCounter(Lookup(counters, row.key), row.cause);
      } else {
        c := Observe(row.key, row.cause);
      }
      var escalated := c.escalated;
      var due := AlertDue(c, now);
      var tier := cfg.tierOf(row.cause);
      var action := ConvergedNoop;
      if tier == AlertTier {
        if due {
          escalated, action := TryAlert(row, dry, now);
        }
      } else if c.count < cfg.limit {
        if row.cause in cfg.dispatchers {
          if dry {
            action := AutoDispatch;
          } else {
            calls := calls + [row.key];
            if row.auto == Raised {
              return None;
            }
            action := if row.auto == Performed then AutoDispatch else AutoNoop;
          }
        } else {
          action := NoDispatcher;
        }
      } else if due {
        escalated, action := TryAlert(row, dry, now);
      }
      return Some(Decision(row.key, row.cause, tier, action, c.count, escalated));
    }

    /** A suppressed or deferred row: only reported, at what it counted last. */
    method ReportOnly(row: Row) returns (decision: Decision)
      requires PassedOver(row)
      ensures forall w: Walk :: w.counters == counters && !w.crashed ==>
                PassOver(cfg, w, row) == w.(report := w.report + [decision], touched := w.touched + {row.key})
    {
      var count, escalated := 0, false;
      if row.key in counters {
        count, escalated := counters[row.key].count, counters[row.key].escalated;
      }
      var action := if row.suppressed then SuppressedBaselineRed else Deferred;
      decision := Decision(row.key, row.cause, cfg.tierOf(row.cause), action, count, escalated);
    }

    /** One turn of the loop of `sweep`. */
    method HandleRow(row: Row, now: real, dry: bool, ghost w: Walk) returns (decision: Option<Decision>)
      requires w.counters == counters && w.calls == calls && !w.crashed
      modifies this`counters, this`calls
      ensures Step(cfg, w, row, now, dry)
           == Walk(counters, w.report + (if decision.Some? then [decision.value] else []), calls,
                   w.touched + {row.key}, decision == None)
    {
      if row.suppressed || row.deferred {
        var d := ReportOnly(row);
        return Some(d);
      }
      decision := ActOn(row, now, dry);
    }

    /** The rows of a sweep, in order, up to the first dispatcher that raises. */
    method HandleRows(rows: seq<Row>, now: real, dry: bool) returns (report: seq<Decision>, touched: set<Key>, crashed: bool)
      modifies this
      ensures log == old(log) + (if dry then [] else report)
      ensures var walk := WalkRows(cfg, old(counters), rows, now, dry);
              && counters == walk.counters && report == walk.report && crashed == walk.crashed
              && (!crashed ==> touched == walk.touched) && calls == old(calls) + walk.calls
    {
      report, touched, crashed := [], {}, false;
      ghost var start, before := counters, calls;
      calls := [];
      for i := 0 to |rows|
        invariant WalkRows(cfg, start, rows[..i], now, dry) == Walk(counters, report, calls, touched, false)
        invariant log == old(log) + (if dry then [] else report)
      {
        assert rows[..i + 1][..i] == rows[..i];
        var decision := HandleRow(rows[i], now, dry, Walk(counters, report, calls, touched, false));
        touched := touched + {rows[i].key};
        if decision == None {
          assert report + [] == report;
          CrashSticks(cfg, start, rows, i + 1, now, dry);
          calls := before + calls;
          return report, touched, true;
        }
        report := report + [decision.value];
        if !dry {
          log := log + [decision.value];
        }
      }
      assert rows[..|rows|] == rows;
      calls := before + calls;
    }

    /** `sweep` */
    method RunSweep(w: Sweep) returns (report: seq<Decision>, crashed: bool, dismissed: set<Key>)
      modifies this
      ensures log == old(log) + (if w.dry then [] else report)
      ensures dismissed == if w.dry || crashed || !w.clear then {}
                           else Dropped(WalkRows(cfg, old(counters), w.rows, w.now, w.dry))
      ensures var walk := WalkRows(cfg, old(counters), w.rows, w.now, w.dry);
              report == walk.report && crashed == walk.crashed && calls == old(calls) + walk.calls
      ensures counters == CountersAfter(cfg, old(counters), w)
    {
      var touched;
      report, touched, crashed := HandleRows(w.rows, w.now, w.dry);
      dismissed := {};
      if !crashed && !w.dry && w.clear {
        dismissed := set k | k in counters && k !in touched && k.key != "";
        counters := map k | k in counters && (k in touched || k.key == "") :: counters[k];
      }
    }
  }

  lemma {:induction false} CrashSticks(cfg: Config, s: Counters, rows: seq<Row>, i: nat, now: real, dry: bool)
    requires i <= |rows| && WalkRows(cfg, s, rows[..i], now, dry).crashed
    ensures WalkRows(cfg, s, rows, now, dry) == WalkRows(cfg, s, rows[..i], now, dry)
    decreases |rows|
  {
    if i == |rows| {
      assert rows[..i] == rows;
    } else {
      assert rows[..|rows| - 1][..i] == rows[..i];
      CrashSticks(cfg, s, rows[..|rows| - 1], i, now, dry);
    }
  }
}
