/**
 The recorder of `coord/block_log.py` beside the queue it records: ticks and the moves a tick's
 plan does not describe change rows, and each appends its own records to the stall log.

 Other parts of the program move rows without a record.  `OpenExactly` says over every run, those
 moves included, when an episode is open in the fold of the log; `OpenKeysAreStalledRows` says it
 for the runs in which every move records what it does.
 */
module StallRuns {
  import opened Common
  import opened BlockLog

  datatype QState = Waiting | Running | Blocked | Parked | Done | OtherState(name: string)

  predicate IsStall(s: QState) {
    s == Blocked || s == Parked
  }

  function StateName(s: QState): string {
    match s
    case Waiting => "waiting"
    case Running => "running"
    case Blocked => "blocked"
    case Parked => "parked"
    case Done => "done"
    case OtherState(name) => name
  }

  datatype Entry = Entry(state: QState, lastReason: string, attempts: int)

  type Queue = map<string, Entry>

  predicate Stalled(q: Queue, key: string) {
    key in q && IsStall(q[key].state)
  }

  // ── a decided tick ─────────────────────────────────────────────────────────

  /** One `(key, updates)` of `plan.writes()`; a field left out of the update is `None`. */
  datatype Write = Write(key: string, state: Option<QState>, reason: Option<string>)

  datatype Plan = Plan(writes: seq<Write>, outcomes: map<string, string>, blockReasons: map<string, string>)

  /** `_final_states`: the last write that names a state wins. */
  function FinalStates(ws: seq<Write>): map<string, QState> {
    if ws == [] then map[] else
    var before, w := FinalStates(ws[..|ws| - 1]), ws[|ws| - 1];
    if w.state.Some? then before[w.key := w.state.value] else before
  }

  function FinalReasons(ws: seq<Write>): map<string, string> {
    if ws == [] then map[] else
    var before, w := FinalReasons(ws[..|ws| - 1]), ws[|ws| - 1];
    if w.reason.Some? && w.reason.value != "" then before[w.key := w.reason.value] else before
  }

  /** `_apply_writes`: each write updates its row, in order; a write for a missing row does nothing. */
  function ApplyWrites(q: Queue, ws: seq<Write>): Queue {
    if ws == [] then q else
    var before, w := ApplyWrites(q, ws[..|ws| - 1]), ws[|ws| - 1];
    if w.key !in before then before
    else
      var row := before[w.key];
      before[w.key := row.(state := if w.state.Some? then w.state.value else row.state,
                          lastReason := if w.reason.Some? then w.reason.value else row.lastReason)]
  }

  // ── the records ────────────────────────────────────────────────────────────

  predicate Mentions(text: string, marker: string) {
    marker <= text || (text != [] && Mentions(text[1..], marker))
  }

  datatype Cause = Cause(slug: string, human: bool)

  /** `_resume_cause`: the first known marker wins; only a Gate-A release counts as human. */
  function ResumeCause(reason: string): Cause {
    if Mentions(reason, "(#2063)") then Cause("gate-a-signed", true)
    else if Mentions(reason, "(#2230)") then Cause("gate-cleared-after-giveup", false)
    else if Mentions(reason, "(#2158)") then Cause("unrefreshable-reading", false)
    else if Mentions(reason, "(#2182)") then Cause("ci-reported", false)
    else if Mentions(reason, "(#1891)") then Cause("ci-reported", false)
    else Cause("auto-released", false)
  }

  function EnterRecord(key: string, state: QState, reason: string, attempts: int, host: string, now: real): Event {
    Enter(key, now, StateName(state), reason, attempts, host)
  }

  /** `_resolve_record`: how a stall ended, read off the release itself. */
  function ResolveRecord(key: string, newState: QState, reason: string, now: real, outcome: string): Event {
    if outcome == "merged" then Resolve(key, now, "auto_merged", "auto-merged", false, "tick")
    else if outcome == "done" || newState == Done then Resolve(key, now, "landed", "already-landed", false, "tick")
    else if outcome == "resumed" then
      Resolve(key, now, "auto_resumed", ResumeCause(reason).slug, ResumeCause(reason).human, "tick")
    else if outcome == "unreachable_reset" then
      Resolve(key, now, "auto_resumed", "unreachable-reset", false, "tick")
    else Resolve(key, now, if outcome == "" then "moved" else outcome, "unclassified", false, "tick")
  }

  function Lookup(m: map<string, string>, key: string): string {
    if key in m then m[key] else ""
  }

  /** The record one key of a decided tick calls for: an `enter`, a `resolve`, or none. */
  function KeyEvent(q: Queue, plan: Plan, key: string, host: string, now: real): Option<Event> {
    var states := FinalStates(plan.writes);
    if key !in states || Stalled(q, key) == IsStall(states[key]) then None
    else
      var blocked := Lookup(plan.blockReasons, key);
      var reason := if blocked != "" then blocked else Lookup(FinalReasons(plan.writes), key);
      if IsStall(states[key])
      then Some(EnterRecord(key, states[key], reason, if key in q then q[key].attempts else 0, host, now))
      else Some(ResolveRecord(key, states[key], reason, now, Lookup(plan.outcomes, key)))
  }

  function PlanEvents(q: Queue, plan: Plan, order: seq<string>, host: string, now: real): seq<Event> {
    if order == [] then [] else
    var e := KeyEvent(q, plan, order[|order| - 1], host, now);
    PlanEvents(q, plan, order[..|order| - 1], host, now) + (if e.Some? then [e.value] else [])
  }

  /** `plan_events`, for one enumeration `order` of the keys the plan gives a state. */
  method RecordPlan(q: Queue, plan: Plan, order: seq<string>, host: string, now: real) returns (out: seq<Event>)
    requires forall k :: k in order ==> k in FinalStates(plan.writes)
    ensures out == PlanEvents(q, plan, order, host, now)
  {
    var states: map<string, QState>, reasons: map<string, string> := map[], map[];
    for n := 0 to |plan.writes|
      invariant states == FinalStates(plan.writes[..n])
      invariant reasons == FinalReasons(plan.writes[..n])
    {
      var w := plan.writes[n];
      assert plan.writes[..n + 1][..n] == plan.writes[..n];
      if w.state.Some? {
        states := states[w.key := w.state.value];
      }
      if w.reason.Some? && w.reason.value != "" {
        reasons := reasons[w.key := w.reason.value];
      }
    }
    assert plan.writes[..|plan.writes|] == plan.writes;
    out := [];
    for n := 0 to |order|
      invariant out == PlanEvents(q, plan, order[..n], host, now)
    {
      var key := order[n];
      assert order[..n + 1][..n] == order[..n];
      assert key in order;
      var newState := states[key];
      var wasStalled := key in q && IsStall(q[key].state);
      if wasStalled == IsStall(newState) {
        continue;
      }
      var blocked := Lookup(plan.blockReasons, key);
      var reason := if blocked != "" then blocked else Lookup(reasons, key);
      if IsStall(newState) {
        out := out + [EnterRecord(key, newState, reason, if key in q then q[key].attempts else 0, host, now)];
      } else {
        out := out + [ResolveRecord(key, newState, reason, now, Lookup(plan.outcomes, key))];
      }
    }
    assert order[..|order|] == order;
  }

  /** The state a key ends a tick in is the one its last write with a state names. */
  lemma {:induction false} LastNamedStateWins(ws: seq<Write>, key: string, i: nat)
    requires i < |ws| && ws[i].key == key && ws[i].state.Some?
    requires forall j :: i < j < |ws| && ws[j].key == key ==> ws[j].state == None
    ensures key in FinalStates(ws) && FinalStates(ws)[key] == ws[i].state.value
  {
    if i < |ws| - 1 {
      assert ws[..|ws| - 1][i] == ws[i];
      LastNamedStateWins(ws[..|ws| - 1], key, i);
    }
  }

  lemma {:induction false} UnnamedKeyHasNoFinalState(ws: seq<Write>, key: string)
    requires forall j :: 0 <= j < |ws| && ws[j].key == key ==> ws[j].state == None
    ensures key !in FinalStates(ws)
  {
    if ws != [] {
      UnnamedKeyHasNoFinalState(ws[..|ws| - 1], key);
    }
  }

  /** The reason a tick gives for a key: why it blocked it, else the last reason it wrote. */
  function TickReason(plan: Plan, key: string): string {
    if Lookup(plan.blockReasons, key) != "" then plan.blockReasons[key] else Lookup(FinalReasons(plan.writes), key)
  }

  /**
   What the record of a tick about a key says, whatever `i` is the key's last write with a state: a
   row that was not blocked or parked and now is enters a stall, one that was and is not leaves it.
   Only a signed-off gate counts as a person's doing, only a merge of this tick as merged, only a
   finished row as landed.
   */
  lemma TickSays(q: Queue, plan: Plan, key: string, i: nat, host: string, now: real)
    requires i < |plan.writes| && plan.writes[i].key == key && plan.writes[i].state.Some?
    requires forall j :: i < j < |plan.writes| && plan.writes[j].key == key ==> plan.writes[j].state == None
    ensures var e, state, outcome, reason :=
              KeyEvent(q, plan, key, host, now), plan.writes[i].state.value, Lookup(plan.outcomes, key), TickReason(plan, key);
            var before, after := key in q && q[key].state in {Blocked, Parked}, state in {Blocked, Parked};
            && (e == None <==> before == after)
            && (e.Some? && after ==> e == Some(Enter(key, now, StateName(state), reason, if key in q then q[key].attempts else 0, host)))
            && (e.Some? && before ==>
                  && e.value.Resolve? && e.value.key == key && e.value.ts == now && e.value.source == "tick"
                  && (e.value.resolution == "auto_merged" ==> outcome == "merged" || outcome == "auto_merged")
                  && (outcome == "merged" ==> e.value.resolution == "auto_merged" && e.value.trueCause == "auto-merged")
                  && (outcome != "merged" && (outcome == "done" || state == Done) ==>
                        e.value.resolution == "landed" && e.value.trueCause == "already-landed")
                  && (e.value.humanActed <==> outcome == "resumed" && state != Done && Mentions(reason, "(#2063)")))
  {
    LastNamedStateWins(plan.writes, key, i);
    OutcomesDiffer();
  }

  lemma OutcomesDiffer()
    ensures "merged" != "resumed" && "done" != "resumed" && "auto_merged" != "landed" && "auto_merged" != "auto_resumed"
    ensures "auto_merged" != "moved"
  {
    assert "merged"[0] == 'm' && "resumed"[0] == 'r' && "done"[0] == 'd' && "landed"[0] == 'l' && "moved"[0] == 'm';
    assert "auto_merged"[5] == 'm' && "auto_resumed"[5] == 'r' && "auto_merged"[0] == 'a';
  }

  predicate Distinct(order: seq<string>) {
    order == [] || (order[|order| - 1] !in order[..|order| - 1] && Distinct(order[..|order| - 1]))
  }

  // ── the queue and the log, moving together ─────────────────────────────────

  datatype Move =
    | Tick(plan: Plan, order: seq<string>)
    | LaunchFailed(key: string, reason: string, attempts: int)
    | MergeOnlyLanded(key: string)
    | MergeOnlyFellBack(key: string, reason: string)
    | OperatorRemoved(key: string, resolution: string)
    | Enqueued(key: string, reason: string)
    | Launched(key: string)
    | Observed(note: Event)
    | Unrecorded(key: string, row: Option<Entry>)

  /** When a move can happen; `Unrecorded` removes a row or sets it to anything, and writes no record. */
  ghost predicate Enabled(q: Queue, m: Move) {
    match m
    case Tick(plan, order) =>
      && Distinct(order)
      && (forall k :: k in order <==> k in FinalStates(plan.writes))
    case LaunchFailed(key, _, _) => key in q && !Stalled(q, key)
    case MergeOnlyLanded(key) => key in q && (Stalled(q, key) || q[key].state == Running)
    case MergeOnlyFellBack(key, _) => key in q && (Stalled(q, key) || q[key].state == Running)
    case OperatorRemoved(key, _) => key in q
    case Enqueued(key, _) => key != "" && key !in q
    case Launched(key) => key in q && q[key].state == Waiting
    case Observed(note) => !note.Enter? && !note.Resolve?
    case Unrecorded(_, _) => true
  }

  function Moved(q: Queue, m: Move): Queue
    requires Enabled(q, m)
  {
    match m
    case Tick(plan, _) => ApplyWrites(q, plan.writes)
    case LaunchFailed(key, reason, attempts) => q[key := Entry(Blocked, reason, attempts)]
    case MergeOnlyLanded(key) => q[key := q[key].(state := Done)]
    case MergeOnlyFellBack(key, reason) => q[key := Entry(Waiting, reason, 0)]
    case OperatorRemoved(key, _) => q - {key}
    case Enqueued(key, reason) => q[key := Entry(Waiting, reason, 0)]
    case Launched(key) => q[key := q[key].(state := Running)]
    case Observed(_) => q
    case Unrecorded(key, row) => if row.Some? then q[key := row.value] else q - {key}
  }

  /** The `enter` a merge-only attempt on a running row writes so that its `resolve` is not an orphan. */
  function RunningOriginEnter(q: Queue, key: string): seq<Event>
    requires key in q
  {
    if q[key].state == Running
    then [EnterRecord(key, Running,
                      if q[key].lastReason != "" then q[key].lastReason else "merge gate read clear",
                      q[key].attempts, "", 0.0)]
    else []
  }

  function Recorded(q: Queue, m: Move): seq<Event>
    requires Enabled(q, m)
  {
    match m
    case Tick(plan, order) => PlanEvents(q, plan, order, "", 0.0)
    case LaunchFailed(key, reason, attempts) => [EnterRecord(key, Blocked, reason, attempts, "", 0.0)]
    case MergeOnlyLanded(key) => RunningOriginEnter(q, key) + [ResolveRecord(key, Done, "", 0.0, "merged")]
    case MergeOnlyFellBack(key, reason) =>
      RunningOriginEnter(q, key) + [ResolveRecord(key, Waiting, reason, 0.0, "resumed")]
    case OperatorRemoved(key, resolution) =>
      if Stalled(q, key) then [Resolve(key, 0.0, resolution, "operator-intervened", true, "operator")] else []
    case Enqueued(_, _) => []
    case Launched(_) => []
    case Observed(note) => [note]
    case Unrecorded(_, _) => []
  }

  /** A run: every move is possible where it happens. */
  ghost predicate Run(q: Queue, moves: seq<Move>)
    decreases |moves|, 0
  {
    moves == [] || (Run(q, moves[..|moves| - 1]) && Enabled(QueueAfter(q, moves[..|moves| - 1]), moves[|moves| - 1]))
  }

  ghost function QueueAfter(q: Queue, moves: seq<Move>): Queue
    requires Run(q, moves)
    decreases |moves|, 1
  {
    if moves == [] then q else Moved(QueueAfter(q, moves[..|moves| - 1]), moves[|moves| - 1])
  }

  ghost function LogAfter(q: Queue, moves: seq<Move>): seq<Event>
    requires Run(q, moves)
  {
    if moves == [] then []
    else LogAfter(q, moves[..|moves| - 1]) + Recorded(QueueAfter(q, moves[..|moves| - 1]), moves[|moves| - 1])
  }

  /** The row was stalled when the log began and has been ever since. */
  ghost predicate StalledThroughout(q: Queue, moves: seq<Move>, key: string)
    requires Run(q, moves)
  {
    Stalled(QueueAfter(q, moves), key) && (moves == [] || StalledThroughout(q, moves[..|moves| - 1], key))
  }

  predicate Open(log: seq<Event>, key: string) {
    On(Replay(log).open, key) != []
  }

  // ── what a record does to the open episodes ────────────────────────────────

  lemma EventsOfAppend(log: seq<Event>, e: Event, key: string)
    ensures EventsOf(log + [e], key) == EventsOf(log, key) + (if e.key == key then [e] else [])
  {
    assert (log + [e])[..|log|] == log;
  }

  lemma OpenAsRead(log: seq<Event>, key: string)
    requires key != ""
    ensures Open(log, key) <==> Read(EventsOf(log, key)).episodes != [] && Read(EventsOf(log, key)).open
  {
    ReplayAgrees(log, key);
  }

  lemma OpenAfterOne(log: seq<Event>, e: Event, key: string)
    requires key != ""
    ensures Open(log + [e], key) ==
            if e.key != key then Open(log, key) else if e.Enter? then true
            else if e.Resolve? then false else Open(log, key)
  {
    var own := EventsOf(log, key);
    OpenAsRead(log, key);
    OpenAsRead(log + [e], key);
    EventsOfAppend(log, e, key);
    if e.key != key {
      assert own + [] == own;
    } else {
      assert (own + [e])[..|own|] == own;
      assert Read(own + [e]) == ReadEvent(Read(own), e);
    }
  }

  lemma KeyEventShape(q: Queue, plan: Plan, key: string)
    ensures var e, states := KeyEvent(q, plan, key, "", 0.0), FinalStates(plan.writes);
            && (e.Some? <==> key in states && Stalled(q, key) != IsStall(states[key]))
            && (e.Some? ==> e.value.key == key && (if IsStall(states[key]) then e.value.Enter? else e.value.Resolve?))
  {
  }

  lemma {:induction false} OpenAfterPlan(log: seq<Event>, q: Queue, plan: Plan, order: seq<string>, key: string)
    requires key != "" && Distinct(order)
    ensures Open(log + PlanEvents(q, plan, order, "", 0.0), key) ==
            var states := FinalStates(plan.writes);
            if key in order && key in states && Stalled(q, key) != IsStall(states[key])
            then IsStall(states[key]) else Open(log, key)
  {
    if order == [] {
      assert log + [] == log;
    } else {
      var init, k := order[..|order| - 1], order[|order| - 1];
      OpenAfterPlan(log, q, plan, init, key);
      assert forall o :: o in order <==> o == k || o in init;
      OpenAfterKey(log, PlanEvents(q, plan, init, "", 0.0), q, plan, k, key);
    }
  }

  /** One more key of the plan. */
  lemma OpenAfterKey(log: seq<Event>, sofar: seq<Event>, q: Queue, plan: Plan, k: string, key: string)
    requires key != ""
    ensures var e := KeyEvent(q, plan, k, "", 0.0);
            Open(log + (sofar + (if e.Some? then [e.value] else [])), key)
            == if k == key && e.Some? then IsStall(FinalStates(plan.writes)[k]) else Open(log + sofar, key)
  {
    var e := KeyEvent(q, plan, k, "", 0.0);
    KeyEventShape(q, plan, k);
    if e.Some? {
      assert log + (sofar + [e.value]) == (log + sofar) + [e.value];
      OpenAfterOne(log + sofar, e.value, key);
    } else {
      assert sofar + [] == sofar;
    }
  }

  lemma {:induction false} WritesSetFinalState(q: Queue, ws: seq<Write>, key: string)
    ensures key in ApplyWrites(q, ws) <==> key in q
    ensures key in q ==> ApplyWrites(q, ws)[key].state ==
                         if key in FinalStates(ws) then FinalStates(ws)[key] else q[key].state
  {
    if ws != [] {
      WritesSetFinalState(q, ws[..|ws| - 1], key);
    }
  }

  lemma MergeOnlyCloses(q: Queue, log: seq<Event>, k: string, e: Event, key: string)
    requires k in q && key != "" && e.key == k && e.Resolve?
    ensures Open(log + (RunningOriginEnter(q, k) + [e]), key) == (key != k && Open(log, key))
  {
    var first := RunningOriginEnter(q, k);
    assert log + (first + [e]) == (log + first) + [e];
    OpenAfterOne(log + first, e, key);
    if first == [] {
      assert log + first == log;
    } else {
      assert first == [first[0]];
      OpenAfterOne(log, first[0], key);
    }
  }

  // ── what the records claim ─────────────────────────────────────────────────

  /** What a move's records say about `key`: stalled, not stalled any more, or nothing. */
  function Claim(q: Queue, m: Move, key: string): Option<bool>
    requires Enabled(q, m)
  {
    match m
    case Tick(plan, _) =>
      var states := FinalStates(plan.writes);
      if key in states && Stalled(q, key) != IsStall(states[key]) then Some(IsStall(states[key])) else None
    case LaunchFailed(k, _, _) => if k == key then Some(true) else None
    case MergeOnlyLanded(k) => if k == key then Some(false) else None
    case MergeOnlyFellBack(k, _) => if k == key then Some(false) else None
    case OperatorRemoved(k, _) => if k == key && Stalled(q, k) then Some(false) else None
    case _ => None
  }

  lemma TickClaims(q: Queue, log: seq<Event>, m: Move, key: string)
    requires m.Tick? && key != "" && Enabled(q, m)
    ensures Open(log + Recorded(q, m), key) == (match Claim(q, m, key) case Some(v) => v case None => Open(log, key))
  {
    OpenAfterPlan(log, q, m.plan, m.order, key);
  }

  lemma MergeOnlyClaims(q: Queue, log: seq<Event>, m: Move, key: string)
    requires (m.MergeOnlyLanded? || m.MergeOnlyFellBack?) && key != "" && Enabled(q, m)
    ensures Open(log + Recorded(q, m), key) == (match Claim(q, m, key) case Some(v) => v case None => Open(log, key))
  {
    var e := if m.MergeOnlyLanded? then ResolveRecord(m.key, Done, "", 0.0, "merged")
             else ResolveRecord(m.key, Waiting, m.reason, 0.0, "resumed");
    MergeOnlyCloses(q, log, m.key, e, key);
  }

  /** The fold of the log believes the last claim. */
  lemma MoveClaims(q: Queue, log: seq<Event>, m: Move, key: string)
    requires key != "" && Enabled(q, m)
    ensures Open(log + Recorded(q, m), key) == (match Claim(q, m, key) case Some(v) => v case None => Open(log, key))
  {
    if m.Tick? {
      TickClaims(q, log, m, key);
    } else if m.MergeOnlyLanded? || m.MergeOnlyFellBack? {
      MergeOnlyClaims(q, log, m, key);
    } else {
      var es := Recorded(q, m);
      if es == [] {
        assert log + es == log;
      } else {
        assert es == [es[0]];
        OpenAfterOne(log, es[0], key);
      }
    }
  }

  /** What the log knows of a row: the last claim made about it, wherever the row is by now. */
  ghost predicate Known(q: Queue, moves: seq<Move>, key: string)
    requires Run(q, moves)
  {
    moves != [] &&
    (var init := moves[..|moves| - 1];
     var claim := Claim(QueueAfter(q, init), moves[|moves| - 1], key);
     if claim.Some? then claim.value else Known(q, init, key))
  }

  /** Over every run: an episode is open exactly when the last claim about its row is that it stalled. */
  lemma {:induction false} OpenIsKnown(q: Queue, moves: seq<Move>, key: string)
    requires Run(q, moves) && key != ""
    ensures Open(LogAfter(q, moves), key) <==> Known(q, moves, key)
  {
    if moves != [] {
      var init := moves[..|moves| - 1];
      OpenIsKnown(q, init, key);
      MoveClaims(QueueAfter(q, init), LogAfter(q, init), moves[|moves| - 1], key);
    }
  }

  // ── the main results ───────────────────────────────────────────────────────

  /**
   How often a row has slipped across the stall boundary unnoticed since the last record about it;
   a row that was stalled before the log began has slipped once.
   */
  ghost function Slips(q: Queue, moves: seq<Move>, key: string): nat
    requires Run(q, moves)
  {
    if moves == [] then (if Stalled(q, key) then 1 else 0)
    else
      var init, m := moves[..|moves| - 1], moves[|moves| - 1];
      var before := QueueAfter(q, init);
      var claim, stalled := Claim(before, m, key), Stalled(Moved(before, m), key);
      if claim.Some? then (if claim.value == stalled then 0 else 1)
      else Slips(q, init, key) + (if Stalled(before, key) == stalled then 0 else 1)
  }

  predicate Even(n: nat) {
    n == 0 || !Even(n - 1)
  }

  lemma {:induction false} KnownUpToSlips(q: Queue, moves: seq<Move>, key: string)
    requires Run(q, moves)
    ensures (Known(q, moves, key) <==> Stalled(QueueAfter(q, moves), key)) <==> Even(Slips(q, moves, key))
  {
    if moves != [] {
      KnownUpToSlips(q, moves[..|moves| - 1], key);
    }
  }

  /**
   Over every run, unrecorded moves included: "open" and "stalled" agree on a row if and only if it
   has slipped an even number of times.
   */
  lemma OpenExactly(q: Queue, moves: seq<Move>, key: string)
    requires Run(q, moves) && key != ""
    ensures (Open(LogAfter(q, moves), key) <==> Stalled(QueueAfter(q, moves), key)) <==> Even(Slips(q, moves, key))
  {
    OpenIsKnown(q, moves, key);
    KnownUpToSlips(q, moves, key);
  }

  /** A move that records what it does, and a tick that speaks about queued rows only. */
  ghost predicate Recording(q: Queue, m: Move) {
    !m.Unrecorded? && (m.Tick? ==> forall k :: k in m.order ==> k in q)
  }

  ghost predicate AllRecording(q: Queue, moves: seq<Move>)
    requires Run(q, moves)
  {
    moves == [] ||
    (AllRecording(q, moves[..|moves| - 1]) && Recording(QueueAfter(q, moves[..|moves| - 1]), moves[|moves| - 1]))
  }

  /** Such a move claims every crossing of the stall boundary, and truly. */
  lemma RecordingClaimsTruly(q: Queue, m: Move, key: string)
    requires key != "" && Enabled(q, m) && Recording(q, m)
    ensures var claim, stalled := Claim(q, m, key), Stalled(Moved(q, m), key);
            if claim.Some? then claim.value == stalled && (Stalled(q, key) ==> !stalled)
            else stalled == Stalled(q, key)
  {
    if m.Tick? {
      WritesSetFinalState(q, m.plan.writes, key);
    }
  }

  lemma {:induction false} RecordedRowsSlipAtStartOnly(q: Queue, moves: seq<Move>, key: string)
    requires Run(q, moves) && AllRecording(q, moves) && key != ""
    ensures Slips(q, moves, key) == if StalledThroughout(q, moves, key) then 1 else 0
  {
    if moves != [] {
      var init := moves[..|moves| - 1];
      RecordedRowsSlipAtStartOnly(q, init, key);
      RecordingClaimsTruly(QueueAfter(q, init), moves[|moves| - 1], key);
    }
  }

  lemma {:induction false} ThroughoutNeedsStart(q: Queue, moves: seq<Move>, key: string)
    requires Run(q, moves) && StalledThroughout(q, moves, key)
    ensures Stalled(q, key)
  {
    if moves != [] {
      ThroughoutNeedsStart(q, moves[..|moves| - 1], key);
    }
  }

  lemma RecordedRow(q: Queue, moves: seq<Move>, key: string)
    requires Run(q, moves) && AllRecording(q, moves) && key != ""
    ensures Open(LogAfter(q, moves), key) <==>
              Stalled(QueueAfter(q, moves), key) && !StalledThroughout(q, moves, key)
    ensures StalledThroughout(q, moves, key) ==> Stalled(q, key)
  {
    OpenExactly(q, moves, key);
    RecordedRowsSlipAtStartOnly(q, moves, key);
    assert Even(0) && !Even(1);
    if StalledThroughout(q, moves, key) {
      ThroughoutNeedsStart(q, moves, key);
    }
  }

  /**
   When every move records what it does, the open episodes are a subset of the stalled rows, and
   the same set when nothing was stalled at the start.
   */
  lemma OpenKeysAreStalledRows(q: Queue, moves: seq<Move>)
    requires Run(q, moves) && AllRecording(q, moves)
    ensures var t := QueueAfter(q, moves);
            forall key :: key != "" && Open(LogAfter(q, moves), key) ==> key in t && t[key].state in {Blocked, Parked}
    ensures (forall key :: key in q ==> q[key].state !in {Blocked, Parked}) ==>
            var t := QueueAfter(q, moves);
            forall key :: key != "" ==>
              (Open(LogAfter(q, moves), key) <==> key in t && t[key].state in {Blocked, Parked})
  {
    forall key | key != ""
      ensures Open(LogAfter(q, moves), key) ==> Stalled(QueueAfter(q, moves), key)
      ensures !Stalled(q, key) ==> (Open(LogAfter(q, moves), key) <==> Stalled(QueueAfter(q, moves), key))
    {
      RecordedRow(q, moves, key);
    }
  }

  /** An unrecorded removal leaves an episode open for a row that is gone. */
  lemma UnrecordedRemovalLeavesEpisodeOpen(key: string) returns (q: Queue, moves: seq<Move>)
    requires key != ""
    ensures Run(q, moves) && (forall k :: !Stalled(q, k))
    ensures Open(LogAfter(q, moves), key) && key !in QueueAfter(q, moves)
  {
    q := map[key := Entry(Running, "", 0)];
    var failed, gone := LaunchFailed(key, "no capacity", 1), Unrecorded(key, None);
    moves := [failed, gone];
    assert moves[..1] == [failed] && [failed][..0] == [];
    assert Run(q, []) && QueueAfter(q, []) == q;
    assert Run(q, [failed]) && QueueAfter(q, [failed]) == q[key := Entry(Blocked, "no capacity", 1)];
    assert Known(q, [failed], key);
    OpenIsKnown(q, moves, key);
  }

  /** An unrecorded block opens none for a row that is stalled. */
  lemma UnrecordedBlockOpensNothing(key: string) returns (q: Queue, moves: seq<Move>)
    requires key != ""
    ensures Run(q, moves) && (forall k :: !Stalled(q, k))
    ensures !Open(LogAfter(q, moves), key) && Stalled(QueueAfter(q, moves), key)
  {
    q := map[key := Entry(Waiting, "", 0)];
    var put := Unrecorded(key, Some(Entry(Blocked, "not confirmed", 0)));
    moves := [put];
    assert moves[..0] == [] && Run(q, []) && QueueAfter(q, []) == q;
    OpenIsKnown(q, moves, key);
  }
}
