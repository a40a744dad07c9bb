/**
 The configuration cache of `coord/audit.py`: the parsed file is kept under the stamp the file had
 when it was looked at, while threads and edits of the file interleave freely.
 */
module ConfigCache {
  import opened Common

  /** Modification time and size. */
  type Stamp = (int, nat)

  /** One version of the file; a history lists the versions in the order they become current. */
  datatype Version = Version(stamp: Stamp, config: string)

  type History = h: seq<Version> | |h| > 0 witness [Version((0, 0), "")]

  /** The cached pair, with the moments (indices into the history) its stamp and its text were read at. */
  datatype Entry = Entry(stamp: Stamp, config: string, statAt: nat, loadAt: nat)

  datatype Call =
    | Statted(stamp: Stamp, began: nat)
    | Missed(stamp: Stamp, began: nat)
    | Unstattable(began: nat)
    | Loaded(stamp: Stamp, config: string, began: nat, loadAt: nat)
    | Returned(config: string, began: nat, ended: nat)

  datatype State = State(now: nat, cache: Option<Entry>, calls: map<nat, Call>)

  const START := State(0, None, map[])

  datatype Action = Edit | Stat(t: nat) | StatFails(t: nat) | Lookup(t: nat) | Load(t: nat) | LoadFails(t: nat) | Store(t: nat)

  predicate ByThread(a: Action, t: nat) {
    match a
    case Edit => false
    case Stat(u) => u == t
    case StatFails(u) => u == t
    case Lookup(u) => u == t
    case Load(u) => u == t
    case LoadFails(u) => u == t
    case Store(u) => u == t
  }

  function Next(h: History, s: State, a: Action): Option<State>
    requires s.now < |h|
  {
    match a
    case Edit => if s.now + 1 < |h| then Some(s.(now := s.now + 1)) else None
    case Stat(t) =>
      if t in s.calls then None else Some(s.(calls := s.calls[t := Statted(h[s.now].stamp, s.now)]))
    case StatFails(t) =>
      if t in s.calls then None else Some(s.(calls := s.calls[t := Unstattable(s.now)]))
    case Lookup(t) =>
      if t in s.calls && s.calls[t].Statted? then
        var call := s.calls[t];
        if s.cache.Some? && s.cache.value.stamp == call.stamp
        then Some(s.(calls := s.calls[t := Returned(s.cache.value.config, call.began, s.now)]))
        else Some(s.(calls := s.calls[t := Missed(call.stamp, call.began)]))
      else None
    case Load(t) =>
      if t in s.calls && s.calls[t].Missed? then
        Some(s.(calls := s.calls[t := Loaded(s.calls[t].stamp, h[s.now].config, s.calls[t].began, s.now)]))
      else if t in s.calls && s.calls[t].Unstattable? then
        Some(s.(calls := s.calls[t := Returned(h[s.now].config, s.calls[t].began, s.now)]))
      else None
    case LoadFails(t) =>
      if t in s.calls && (s.calls[t].Missed? || s.calls[t].Unstattable?) then Some(s.(calls := s.calls - {t})) else None
    case Store(t) =>
      if t in s.calls && s.calls[t].Loaded? then
        var call := s.calls[t];
        Some(s.(cache := Some(Entry(call.stamp, call.config, call.began, call.loadAt)),
                calls := s.calls[t := Returned(call.config, call.began, s.now)]))
      else None
  }

  function Execute(h: History, s: State, log: seq<Action>): (r: Option<State>)
    requires s.now < |h|
    ensures r.Some? ==> r.value.now < |h|
    decreases |log|
  {
    if log == [] then Some(s)
    else if Next(h, s, log[0]) == None then None
    else Execute(h, Next(h, s, log[0]).value, log[1..])
  }

  /** The file had this text at some moment between `began` and `ended`. */
  ghost predicate WasCurrent(h: History, config: string, began: nat, ended: nat) {
    exists k :: began <= k <= ended && k < |h| && h[k].config == config
  }

  ghost predicate AnswersGood(h: History, s: State) {
    forall t :: t in s.calls && s.calls[t].Returned? ==> WasCurrent(h, s.calls[t].config, s.calls[t].began, s.calls[t].ended)
  }

  /**
   A stamp comes back only if the text has not changed since, not even in between.  It holds in
   particular when no stamp ever comes back.
   */
  predicate Settled(h: History) {
    forall i, j {:trigger Unchanged(h, i, j)} ::
      0 <= i <= j < |h| && h[i].stamp == h[j].stamp ==> Unchanged(h, i, j)
  }

  predicate Unchanged(h: History, i: nat, j: nat)
    requires j < |h|
  {
    forall k :: i <= k <= j ==> h[k].config == h[j].config
  }

  ghost predicate CallGood(h: History, s: State, call: Call)
    requires s.now < |h|
  {
    match call
    case Statted(stamp, began) => began <= s.now && stamp == h[began].stamp
    case Missed(stamp, began) => began <= s.now && stamp == h[began].stamp
    case Unstattable(began) => began <= s.now
    case Loaded(stamp, config, began, loadAt) =>
      began <= loadAt <= s.now && stamp == h[began].stamp && config == h[loadAt].config
    case Returned(config, began, ended) => WasCurrent(h, config, began, ended)
  }

  ghost predicate Inv(h: History, s: State) {
    && s.now < |h|
    && (forall t :: t in s.calls ==> CallGood(h, s, s.calls[t]))
    && (s.cache.Some? ==>
          var e := s.cache.value;
          e.statAt <= e.loadAt <= s.now && e.stamp == h[e.statAt].stamp && e.config == h[e.loadAt].config)
  }

  lemma HitIsCurrent(h: History, s: State, call: Call)
    requires Settled(h) && Inv(h, s) && CallGood(h, s, call) && call.Statted?
    requires s.cache.Some? && s.cache.value.stamp == call.stamp
    ensures WasCurrent(h, s.cache.value.config, call.began, s.now)
  {
    var e := s.cache.value;
    if e.loadAt >= call.began {
      assert h[e.loadAt].config == e.config;
    } else {
      assert Unchanged(h, e.statAt, call.began);
      assert h[call.began].config == e.config;
    }
  }

  lemma OwnCallGood(h: History, s: State, a: Action, i: nat)
    requires Settled(h) && Inv(h, s) && Next(h, s, a).Some? && ByThread(a, i)
    ensures var t := Next(h, s, a).value; i in t.calls ==> CallGood(h, t, t.calls[i])
  {
    var t := Next(h, s, a).value;
    if i in s.calls {
      var call := s.calls[i];
      assert CallGood(h, s, call);
      match a
      case Lookup(_) =>
        if s.cache.Some? && s.cache.value.stamp == call.stamp {
          HitIsCurrent(h, s, call);
        }
      case Load(_) =>
        assert h[s.now].config == t.calls[i].config;
      case Store(_) =>
        assert h[call.loadAt].config == t.calls[i].config;
      case _ =>
    }
  }

  /** What one thread or an edit does leaves the calls of the others alone. */
  lemma OthersLeaveCall(h: History, s: State, a: Action, i: nat)
    requires s.now < |h| && Next(h, s, a).Some? && !ByThread(a, i)
    ensures var t := Next(h, s, a).value;
            && s.now <= t.now < |h|
            && (i in t.calls <==> i in s.calls) && (i in s.calls ==> t.calls[i] == s.calls[i])
  {
  }

  lemma CacheStaysGood(h: History, s: State, a: Action)
    requires Inv(h, s) && Next(h, s, a).Some?
    ensures var t := Next(h, s, a).value;
            && s.now <= t.now < |h|
            && (t.cache.Some? ==>
                  var e := t.cache.value;
                  e.statAt <= e.loadAt <= t.now && e.stamp == h[e.statAt].stamp && e.config == h[e.loadAt].config)
  {
    if a.Store? {
      assert CallGood(h, s, s.calls[a.t]);
    }
  }

  lemma NextKeepsInv(h: History, s: State, a: Action)
    requires Settled(h) && Inv(h, s) && Next(h, s, a).Some?
    ensures Inv(h, Next(h, s, a).value)
  {
    var t := Next(h, s, a).value;
    CacheStaysGood(h, s, a);
    forall i | i in t.calls ensures CallGood(h, t, t.calls[i]) {
      if ByThread(a, i) {
        OwnCallGood(h, s, a, i);
      } else {
        OthersLeaveCall(h, s, a, i);
        assert CallGood(h, s, s.calls[i]);
      }
    }
  }

  lemma {:induction false} EveryRunKeepsInv(h: History, s: State, log: seq<Action>)
    requires Settled(h) && Inv(h, s) && Execute(h, s, log).Some?
    ensures Inv(h, Execute(h, s, log).value)
    decreases |log|
  {
    if log != [] {
      NextKeepsInv(h, s, log[0]);
      EveryRunKeepsInv(h, Next(h, s, log[0]).value, log[1..]);
    }
  }

  // ── exactly which histories are safe ───────────────────────────────────────

  /** Whatever the interleaving, every answer is a text the file had during the call. */
  ghost predicate AlwaysCurrent(h: History) {
    forall log :: Execute(h, START, log).Some? ==> AnswersGood(h, Execute(h, START, log).value)
  }

  lemma {:induction false} ExecuteConcat(h: History, s: State, a: seq<Action>, b: seq<Action>)
    requires s.now < |h|
    ensures Execute(h, s, a + b)
         == match Execute(h, s, a) case None => None case Some(t) => Execute(h, t, b)
    decreases |a|
  {
    if a == [] {
      assert a + b == b;
    } else {
      assert (a + b)[1..] == a[1..] + b;
      if Next(h, s, a[0]).Some? {
        ExecuteConcat(h, Next(h, s, a[0]).value, a[1..], b);
      }
    }
  }

  lemma {:induction false} Edits(h: History, s: State, n: nat) returns (log: seq<Action>)
    requires s.now + n < |h|
    ensures Execute(h, s, log) == Some(s.(now := s.now + n))
    decreases n
  {
    if n == 0 {
      log := [];
      assert s.(now := s.now + 0) == s;
    } else {
      var rest := Edits(h, s.(now := s.now + 1), n - 1);
      log := [Edit] + rest;
      assert ([Edit] + rest)[1..] == rest;
    }
  }

  lemma ExecuteTwo(h: History, s: State, a: Action, b: Action)
    requires s.now < |h| && Next(h, s, a).Some?
    requires Next(h, s, a).value.now < |h| && Next(h, Next(h, s, a).value, b).Some?
    ensures Execute(h, s, [a, b]) == Next(h, Next(h, s, a).value, b)
  {
    var t := Next(h, s, a).value;
    assert [a, b][1..] == [b] && [b][1..] == [];
    assert Execute(h, t, [b]) == Execute(h, Next(h, t, b).value, []);
  }

  lemma LooksAndMisses(h: History, s: State, t: nat)
    requires s.now < |h| && t !in s.calls && s.cache == None
    ensures Execute(h, s, [Stat(t), Lookup(t)]) == Some(s.(calls := s.calls[t := Missed(h[s.now].stamp, s.now)]))
  {
    ExecuteTwo(h, s, Stat(t), Lookup(t));
    var stamp := h[s.now].stamp;
    assert s.calls[t := Statted(stamp, s.now)][t := Missed(stamp, s.now)] == s.calls[t := Missed(stamp, s.now)];
  }

  lemma LoadsAndStores(h: History, s: State, t: nat)
    requires s.now < |h| && t in s.calls && s.calls[t].Missed?
    ensures var call, config := s.calls[t], h[s.now].config;
            Execute(h, s, [Load(t), Store(t)])
            == Some(s.(cache := Some(Entry(call.stamp, config, call.began, s.now)),
                       calls := s.calls[t := Returned(config, call.began, s.now)]))
  {
    ExecuteTwo(h, s, Load(t), Store(t));
    var call, config := s.calls[t], h[s.now].config;
    assert s.calls[t := Loaded(call.stamp, config, call.began, s.now)][t := Returned(config, call.began, s.now)]
        == s.calls[t := Returned(config, call.began, s.now)];
  }

  lemma LooksAndHits(h: History, s: State, t: nat)
    requires s.now < |h| && t !in s.calls && s.cache.Some? && s.cache.value.stamp == h[s.now].stamp
    ensures var answer := Returned(s.cache.value.config, s.now, s.now);
            Execute(h, s, [Stat(t), Lookup(t)]) == Some(s.(calls := s.calls[t := answer]))
  {
    ExecuteTwo(h, s, Stat(t), Lookup(t));
    var answer := Returned(s.cache.value.config, s.now, s.now);
    assert s.calls[t := Statted(h[s.now].stamp, s.now)][t := answer] == s.calls[t := answer];
  }

  /** A call that looks at version `i` and loads version `k`. */
  lemma StaleEntry(h: History, i: nat, k: nat) returns (log: seq<Action>)
    requires i <= k < |h|
    ensures Execute(h, START, log)
         == Some(State(k, Some(Entry(h[i].stamp, h[k].config, i, k)), map[0 := Returned(h[k].config, i, k)]))
  {
    var toI := Edits(h, START, i);
    var atI := START.(now := i);
    LooksAndMisses(h, atI, 0);
    var missed := atI.(calls := atI.calls[0 := Missed(h[i].stamp, i)]);
    var toK := Edits(h, missed, k - i);
    var atK := missed.(now := k);
    LoadsAndStores(h, atK, 0);
    ExecuteConcat(h, missed, toK, [Load(0), Store(0)]);
    ExecuteConcat(h, atI, [Stat(0), Lookup(0)], toK + [Load(0), Store(0)]);
    log := toI + ([Stat(0), Lookup(0)] + (toK + [Load(0), Store(0)]));
    ExecuteConcat(h, START, toI, [Stat(0), Lookup(0)] + (toK + [Load(0), Store(0)]));
    assert atK.calls[0 := Returned(h[k].config, i, k)] == map[0 := Returned(h[k].config, i, k)];
  }

  /** Another call that then looks at version `j` and finds the same stamp. */
  lemma StaleRun(h: History, i: nat, k: nat, j: nat) returns (log: seq<Action>)
    requires i <= k <= j < |h| && h[i].stamp == h[j].stamp
    ensures Execute(h, START, log).Some?
    ensures var s := Execute(h, START, log).value; 1 in s.calls && s.calls[1] == Returned(h[k].config, j, j)
  {
    var first := StaleEntry(h, i, k);
    var stored := Execute(h, START, first).value;
    var toJ := Edits(h, stored, j - k);
    var atJ := stored.(now := j);
    LooksAndHits(h, atJ, 1);
    ExecuteConcat(h, stored, toJ, [Stat(1), Lookup(1)]);
    ExecuteConcat(h, START, first, toJ + [Stat(1), Lookup(1)]);
    log := first + (toJ + [Stat(1), Lookup(1)]);
  }

  lemma SettledIsCurrent(h: History, log: seq<Action>)
    requires Settled(h) && Execute(h, START, log).Some?
    ensures AnswersGood(h, Execute(h, START, log).value)
  {
    EveryRunKeepsInv(h, START, log);
    var s := Execute(h, START, log).value;
    forall t | t in s.calls && s.calls[t].Returned?
      ensures WasCurrent(h, s.calls[t].config, s.calls[t].began, s.calls[t].ended)
    {
      assert CallGood(h, s, s.calls[t]);
    }
  }

  lemma UnsettledIsNot(h: History) returns (log: seq<Action>)
    requires !Settled(h)
    ensures Execute(h, START, log).Some? && !AnswersGood(h, Execute(h, START, log).value)
  {
    var i, j :| 0 <= i <= j < |h| && h[i].stamp == h[j].stamp && !Unchanged(h, i, j);
    var k :| i <= k <= j && h[k].config != h[j].config;
    log := StaleRun(h, i, k, j);
  }

  /**
   Every call of every interleaving returns a version that was current during the call if and
   only if no stamp comes back after the text has changed.
   */
  lemma CurrentIffSettled(h: History)
    ensures AlwaysCurrent(h) <==> Settled(h)
  {
    if Settled(h) {
      forall log | Execute(h, START, log).Some? ensures AnswersGood(h, Execute(h, START, log).value) {
        SettledIsCurrent(h, log);
      }
    } else {
      var log := UnsettledIsNot(h);
    }
  }

  /** With stamps that never come back every answer was current. */
  lemma FreshStampsAreCurrent(h: History)
    requires forall i, j :: 0 <= i < j < |h| ==> h[i].stamp != h[j].stamp
    ensures AlwaysCurrent(h)
  {
    CurrentIffSettled(h);
  }

  /** Stamps that merely determine the text are not: the file is edited and put back. */
  lemma PuttingBackIsNotSettled() returns (h: History)
    ensures forall i, j :: 0 <= i < j < |h| && h[i].stamp == h[j].stamp ==> h[i].config == h[j].config
    ensures !AlwaysCurrent(h)
  {
    h := [Version((1, 1), "a"), Version((2, 1), "b"), Version((1, 1), "a")];
    assert "a"[0] != "b"[0];
    assert !Unchanged(h, 0, 2) by {
      assert h[1].config != h[2].config;
    }
    CurrentIffSettled(h);
  }

  // ── the reader as it runs ──────────────────────────────────────────────────

  class Cache {
    const h: History
    var now: nat
    var cache: Option<Entry>
    var calls: map<nat, Call>

    function Now(): State
      reads this
    {
      State(now, cache, calls)
    }

    ghost predicate Valid()
      reads this
    {
      Settled(h) && Inv(h, Now())
    }

    constructor (h: History)
      requires Settled(h)
      ensures Valid() && this.h == h && Now() == START
    {
      this.h := h;
      now, cache, calls := 0, None, map[];
    }

    method Do(a: Action)
      requires Valid() && Next(h, Now(), a).Some?
      modifies this
      ensures Valid() && Next(h, old(Now()), a) == Some(Now())
    {
      NextKeepsInv(h, Now(), a);
      var s := Next(h, Now(), a).value;
      now, cache, calls := s.now, s.cache, s.calls;
    }

    /** Other threads and the file's editors take any number of steps. */
    method Others(t: nat)
      requires Valid() && t in calls
      modifies this
      ensures Valid() && old(now) <= now && t in calls && calls[t] == old(calls)[t]
    {
      var turns :| turns >= 0;
      for turn := 0 to turns
        invariant Valid() && old(now) <= now && t in calls && calls[t] == old(calls)[t]
      {
        var a: Action := *;
        if Next(h, Now(), a).Some? && !ByThread(a, t) {
          OthersLeaveCall(h, Now(), a, t);
          Do(a);
        }
      }
    }

    /** `_cached_config`, run by thread `t`; None when loading raises. */
    method CachedConfig(t: nat, stattable: bool, loads: bool) returns (config: Option<string>)
      requires Valid() && t !in calls
      modifies this
      ensures Valid() && old(now) <= now
      ensures config.Some? ==> WasCurrent(h, config.value, old(now), now)
      ensures config == None ==> !loads
    {
      if !stattable {
        Do(StatFails(t));
        Others(t);
        config := Reload(t, loads);
        return;
      }
      Do(Stat(t));
      Others(t);
      Do(Lookup(t));
      if calls[t].Returned? {
        assert CallGood(h, Now(), calls[t]);
        return Some(calls[t].config);
      }
      Others(t);
      config := Reload(t, loads);
    }

    /** The text is read afresh, and kept if it was looked at. */
    method Reload(t: nat, loads: bool) returns (config: Option<string>)
      requires Valid() && t in calls && (calls[t].Missed? || calls[t].Unstattable?)
      modifies this
      ensures Valid() && old(now) <= now
      ensures config.Some? ==> WasCurrent(h, config.value, old(calls)[t].began, now)
      ensures config == None ==> !loads
    {
      if !loads {
        Do(LoadFails(t));
        return None;
      }
      Do(Load(t));
      assert CallGood(h, Now(), calls[t]);
      config := Some(calls[t].config);
      if calls[t].Loaded? {
        assert h[calls[t].loadAt].config == config.value;
        Others(t);
        Do(Store(t));
      }
    }
  }
}
