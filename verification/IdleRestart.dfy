/**
 The idle self-restart watcher of `coord/agent_app.py`: it restarts the agent onto a staged slot
 after the host has been idle for a whole debounce window.
 */
module IdleRestart {
  import opened Common

  type Slot = string

  /** What one poll reads. */
  datatype Facts = Facts(live: Option<Slot>, running: Option<Slot>, assignments: nat, session: bool, daemon: bool)

  /** `_idle_restart_target` */
  function Target(f: Facts): Option<Slot> {
    if f.live == None then None
    else if f.running == None || f.running == f.live then None
    else if f.assignments > 0 then None
    else if f.session then None
    else if f.daemon then None
    else f.live
  }

  /** One poll: `Broken` raised before it had an answer; `saved` says whether the status file could be written. */
  datatype Tick = Poll(facts: Facts, now: real, smoke: bool, saved: bool) | Broken

  predicate Staged(t: Tick) {
    t.Poll? && Target(t.facts).Some?
  }

  // ── the reference: windows in a history ────────────────────────────────────

  /** The poll acts on a window that opened at `since`. */
  predicate Acts(since: real, t: Tick, debounce: real) {
    Staged(t) && t.now - since >= debounce
  }

  /** When the idle window that is open after `ticks` was opened, if one is. */
  function Window(ticks: seq<Tick>, debounce: real): Option<real>
    decreases |ticks|
  {
    if ticks == [] then None
    else
      var t, before := ticks[|ticks| - 1], Window(ticks[..|ticks| - 1], debounce);
      if t.Broken? then before
      else if !Staged(t) then None
      else
        var since := if before.Some? then before.value else t.now;
        if Acts(since, t, debounce) && t.saved then None else Some(since)
  }

  /** Does the last poll of `ticks` restart the agent? */
  predicate Restarts(ticks: seq<Tick>, debounce: real)
    requires ticks != []
  {
    var t, before := ticks[|ticks| - 1], Window(ticks[..|ticks| - 1], debounce);
    Staged(t) && Acts(if before.Some? then before.value else t.now, t, debounce) && t.smoke && t.saved
  }

  /** Another slot than the running one is live, and nothing on the host is in its way. */
  predicate WaitsIdle(t: Tick) {
    && t.Poll?
    && t.facts.live.Some? && t.facts.running.Some? && t.facts.running != t.facts.live
    && t.facts.assignments == 0 && !t.facts.session && !t.facts.daemon
  }

  /** From `j` up to `k` every poll that had an answer found the host waiting idle, and the one at `j` had one. */
  predicate IdleSince(ticks: seq<Tick>, j: nat, k: nat)
    requires j < k <= |ticks|
  {
    WaitsIdle(ticks[j]) && forall i :: j <= i < k ==> ticks[i].Broken? || WaitsIdle(ticks[i])
  }

  /** No poll from `j` up to `k` was `debounce` seconds behind `j` and could save its result: none has used up the window. */
  predicate Unused(ticks: seq<Tick>, j: nat, k: nat, debounce: real)
    requires j < k <= |ticks| && ticks[j].Poll?
  {
    forall i :: j <= i < k && ticks[i].Poll? ==> !(ticks[i].now - ticks[j].now >= debounce && ticks[i].saved)
  }

  /** An open window has a first poll, and every poll since found a swap waiting on an idle host. */
  lemma {:induction false} WindowIsUnbroken(ticks: seq<Tick>, debounce: real) returns (j: nat)
    requires Window(ticks, debounce).Some?
    ensures j < |ticks| && IdleSince(ticks, j, |ticks|) && Unused(ticks, j, |ticks|, debounce)
    ensures ticks[j].now == Window(ticks, debounce).value
    decreases |ticks|
  {
    var last := |ticks| - 1;
    if Window(ticks[..last], debounce) == None {
      j := last;
    } else {
      j := WindowIsUnbroken(ticks[..last], debounce);
      assert forall i :: 0 <= i < last ==> ticks[..last][i] == ticks[i];
    }
  }

  /**
   No restart without a full window: at least `debounce` seconds in which every poll found a swap
   waiting on a host without assignments, sessions or daemon, and none had tried already.
   */
  lemma RestartFollowsWindow(ticks: seq<Tick>, debounce: real) returns (j: nat)
    requires ticks != [] && Restarts(ticks, debounce)
    ensures j < |ticks| && IdleSince(ticks, j, |ticks|)
    ensures j < |ticks| - 1 ==> Unused(ticks, j, |ticks| - 1, debounce)
    ensures var t := ticks[|ticks| - 1]; WaitsIdle(t) && t.smoke && t.saved && t.now - ticks[j].now >= debounce
  {
    var last := |ticks| - 1;
    if Window(ticks[..last], debounce) == None {
      j := last;
    } else {
      j := WindowIsUnbroken(ticks[..last], debounce);
      assert forall i :: 0 <= i < last ==> ticks[..last][i] == ticks[i];
    }
  }

  /** Conversely: a window that nothing closed or consumed, once long enough, restarts the agent. */
  lemma {:induction false} UnbrokenWindowStaysOpen(before: seq<Tick>, ticks: seq<Tick>, debounce: real)
    requires Window(before, debounce) == None && ticks != []
    requires IdleSince(ticks, 0, |ticks|) && Unused(ticks, 0, |ticks|, debounce)
    ensures Window(before + ticks, debounce) == Some(ticks[0].now)
    decreases |ticks|
  {
    var last := |ticks| - 1;
    assert (before + ticks)[..|before| + last] == before + ticks[..last];
    if last == 0 {
      assert before + ticks[..last] == before;
    } else {
      assert forall i :: 0 <= i < last ==> ticks[..last][i] == ticks[i];
      UnbrokenWindowStaysOpen(before, ticks[..last], debounce);
    }
  }

  /** What closes every window: the start, a busy poll, or one with nothing to do. */
  lemma NoWindowAfterBusy(before: seq<Tick>, debounce: real)
    requires before == [] || (var t := before[|before| - 1]; t.Poll? && !WaitsIdle(t))
    ensures Window(before, debounce) == None
  {
  }

  lemma LongWindowRestarts(before: seq<Tick>, ticks: seq<Tick>, t: Tick, debounce: real)
    requires before == [] || (var b := before[|before| - 1]; b.Poll? && !WaitsIdle(b))
    requires ticks != [] && IdleSince(ticks, 0, |ticks|) && Unused(ticks, 0, |ticks|, debounce)
    requires WaitsIdle(t) && t.now - ticks[0].now >= debounce && t.smoke && t.saved
    ensures Restarts(before + ticks + [t], debounce)
  {
    NoWindowAfterBusy(before, debounce);
    UnbrokenWindowStaysOpen(before, ticks, debounce);
    var all := before + ticks + [t];
    assert all[..|all| - 1] == before + ticks;
  }

  // ── the watcher ────────────────────────────────────────────────────────────

  class IdleRestartWatcher {
    const debounce: real
    var idleSince: Option<real>
    ghost var seen: seq<Tick>

    ghost predicate Valid()
      reads this
    {
      idleSince == Window(seen, debounce)
    }

    constructor (debounce: real)
      ensures Valid() && this.debounce == debounce && seen == []
    {
      this.debounce := debounce;
      idleSince, seen := None, [];
    }

    /** `_tick` with `_restart_onto`: the slot the agent is restarted onto, if it is. */
    method OnTick(t: Tick) returns (onto: Option<Slot>)
      requires Valid()
      modifies this
      ensures Valid() && seen == old(seen) + [t]
      ensures onto == if Restarts(seen, debounce) then t.facts.live else None
    {
      seen := seen + [t];
      assert seen[..|seen| - 1] == old(seen);
      if t.Broken? {
        return None;
      }
      var target := Target(t.facts);
      if target == None {
        idleSince := None;
        return None;
      }
      if idleSince == None {
        idleSince := Some(t.now);
      }
      if t.now - idleSince.value < debounce {
        return None;
      }
      if !t.saved {
        return None;
      }
      idleSince := None;
      onto := if t.smoke then target else None;
    }
  }

  // ── restarts against link swaps ────────────────────────────────────────────

  /** The agent on its machine: what the link names, what the process runs from, and the polls since it started. */
  datatype Host = Host(live: Slot, running: Slot, seen: seq<Tick>)

  datatype Event = Swap(slot: Slot) | Polled(tick: Tick)

  /** A poll reads the slots as they are. */
  predicate Honest(h: Host, e: Event) {
    e.Polled? && e.tick.Poll? ==> e.tick.facts.live == Some(h.live) && e.tick.facts.running == Some(h.running)
  }

  predicate RestartsAt(h: Host, e: Event, debounce: real) {
    e.Polled? && Restarts(h.seen + [e.tick], debounce)
  }

  /** A restart runs whatever the link names; the new process starts with a new watcher. */
  function After(h: Host, e: Event, debounce: real): Host {
    match e
    case Swap(slot) => h.(live := slot)
    case Polled(tick) =>
      if RestartsAt(h, e, debounce) then Host(h.live, h.live, []) else h.(seen := h.seen + [tick])
  }

  predicate HonestRun(h: Host, es: seq<Event>, debounce: real)
    decreases |es|
  {
    es == [] || (Honest(h, es[0]) && HonestRun(After(h, es[0], debounce), es[1..], debounce))
  }

  function Final(h: Host, es: seq<Event>, debounce: real): Host
    decreases |es|
  {
    if es == [] then h else Final(After(h, es[0], debounce), es[1..], debounce)
  }

  function RestartCount(h: Host, es: seq<Event>, debounce: real): nat
    decreases |es|
  {
    if es == [] then 0
    else (if RestartsAt(h, es[0], debounce) then 1 else 0) + RestartCount(After(h, es[0], debounce), es[1..], debounce)
  }

  function SwapCount(es: seq<Event>): nat {
    if es == [] then 0 else (if es[0].Swap? then 1 else 0) + SwapCount(es[1..])
  }

  /** 1 while the process runs something other than what the link names. */
  function Behind(h: Host): nat {
    if h.running == h.live then 0 else 1
  }

  lemma RestartClosesAGap(h: Host, e: Event, debounce: real)
    requires Honest(h, e) && RestartsAt(h, e, debounce)
    ensures Behind(h) == 1 && Behind(After(h, e, debounce)) == 0
  {
    assert (h.seen + [e.tick])[|h.seen|] == e.tick;
  }

  /** Every restart uses up a swap, or the mismatch the run began with. */
  lemma {:induction false} RestartsNeedSwaps(h: Host, es: seq<Event>, debounce: real)
    requires HonestRun(h, es, debounce)
    ensures RestartCount(h, es, debounce) + Behind(Final(h, es, debounce)) <= SwapCount(es) + Behind(h)
    decreases |es|
  {
    if es != [] {
      RestartsNeedSwaps(After(h, es[0], debounce), es[1..], debounce);
      if RestartsAt(h, es[0], debounce) {
        RestartClosesAGap(h, es[0], debounce);
      }
    }
  }
}
