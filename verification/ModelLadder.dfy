/**
 The model escalation ladder of `coord/config.py` and `coord/auto_loop.py`, apart from any board.

 A fix round climbs one rung when the failure behind it was worth a bigger model.  `Climb`
 repeats that rule; `CounterIffStepwise` says exactly for which ladders it is a plain counter.
 */
module ModelLadder {
  import opened Common

  datatype Models = Models(escalate: bool, default: string, ladder: seq<string>)

  function IndexOf(ladder: seq<string>, m: string): (i: nat)
    ensures i <= |ladder|
    ensures i < |ladder| ==> ladder[i] == m
    ensures i == |ladder| <==> m !in ladder
  {
    if ladder == [] || ladder[0] == m then 0 else 1 + IndexOf(ladder[1..], m)
  }

  /** `next_model`: the rung above the first rung with this name. */
  function NextModel(ladder: seq<string>, current: string): (next: string)
    ensures current in ladder ==> next in ladder
  {
    var i := IndexOf(ladder, current);
    if i + 1 < |ladder| then ladder[i + 1] else current
  }

  function NextTimes(ladder: seq<string>, m: string, n: nat): string {
    if n == 0 then m else NextModel(ladder, NextTimes(ladder, m, n - 1))
  }

  /** The model of the first fix round; "" when none is configured. */
  function First(m: Models): string {
    if m.default != "" then m.default else if m.ladder != [] then m.ladder[0] else ""
  }

  /** What `_fix_model_for_iteration` answers. */
  function FixModel(m: Models, iteration: nat, bounce: bool, previous: Option<string>): Option<string> {
    if !m.escalate || First(m) == "" then None
    else if iteration <= 1 then Some(First(m))
    else
      var baseline := if previous.Some? && previous.value != "" && previous.value in m.ladder then previous.value
                      else NextTimes(m.ladder, First(m), iteration - 2);
      Some(if bounce then NextModel(m.ladder, baseline) else baseline)
  }

  /** `_fix_model_for_iteration`; `escalates` is None without a failure text, else what its classification says. */
  method FixModelForIteration(m: Models, iteration: nat, escalates: Option<bool>, previous: Option<string>)
    returns (model: Option<string>)
    ensures model == FixModel(m, iteration, escalates != Some(false), previous)
  {
    if !m.escalate {
      return None;
    }
    var first := if m.default != "" then m.default else if m.ladder != [] then m.ladder[0] else "";
    if first == "" {
      return None;
    }
    var steps := (if iteration > 1 then iteration else 1) - 1;
    if steps <= 0 {
      return Some(first);
    }
    var baseline;
    if previous.Some? && previous.value != "" && previous.value in m.ladder {
      baseline := previous.value;
    } else {
      baseline := first;
      for k := 0 to steps - 1
        invariant baseline == NextTimes(m.ladder, first, k)
      {
        baseline := NextModel(m.ladder, baseline);
      }
    }
    if escalates.Some? && !escalates.value {
      return Some(baseline);
    }
    return Some(NextModel(m.ladder, baseline));
  }

  // ── climbing as counting ───────────────────────────────────────────────────

  /** The rung after a row of bounces, each worth a climb or not. */
  function Climb(ladder: seq<string>, start: string, bounces: seq<bool>): string {
    if bounces == [] then start
    else
      var below := Climb(ladder, start, bounces[..|bounces| - 1]);
      if bounces[|bounces| - 1] then NextModel(ladder, below) else below
  }

  function Count(bounces: seq<bool>): nat {
    if bounces == [] then 0 else Count(bounces[..|bounces| - 1]) + (if bounces[|bounces| - 1] then 1 else 0)
  }

  function Min(a: nat, b: nat): nat {
    if a < b then a else b
  }

  /** The counter: `steps` rungs above the rung of `start`, capped at the top. */
  function Rung(ladder: seq<string>, start: string, steps: nat): string
    requires start in ladder
  {
    ladder[Min(|ladder| - 1, IndexOf(ladder, start) + steps)]
  }

  /** From the rung of `start` upwards, looking a rung up by its name finds the rung above it. */
  predicate Stepwise(ladder: seq<string>, start: string) {
    forall i :: IndexOf(ladder, start) <= i < |ladder| ==>
      NextModel(ladder, ladder[i]) == ladder[Min(|ladder| - 1, i + 1)]
  }

  lemma {:induction false} ClimbStaysOn(ladder: seq<string>, start: string, bounces: seq<bool>)
    requires start in ladder
    ensures Climb(ladder, start, bounces) in ladder
  {
    if bounces != [] {
      ClimbStaysOn(ladder, start, bounces[..|bounces| - 1]);
    }
  }

  lemma {:induction false} StepwiseCounts(ladder: seq<string>, start: string, bounces: seq<bool>)
    requires start in ladder && Stepwise(ladder, start)
    ensures Climb(ladder, start, bounces) == Rung(ladder, start, Count(bounces))
  {
    if bounces != [] {
      StepwiseCounts(ladder, start, bounces[..|bounces| - 1]);
    }
  }

  /** Climbing a stepwise ladder `n` times from `start`. */
  lemma {:induction false} NextTimesCounts(ladder: seq<string>, start: string, n: nat)
    requires start in ladder && Stepwise(ladder, start)
    ensures NextTimes(ladder, start, n) == Rung(ladder, start, n)
  {
    if n > 0 {
      NextTimesCounts(ladder, start, n - 1);
    }
  }

  /**
   A later round whose last model is unknown or off the ladder counts the rounds: each one before it is
   taken for a climb, and its own bounce decides about the last rung.
   */
  lemma UnknownPastCountsRounds(m: Models, n: nat, bounce: bool, previous: Option<string>)
    requires previous == None || previous.value !in m.ladder
    requires m.escalate && n >= 2 && First(m) in m.ladder && First(m) != "" && Stepwise(m.ladder, First(m))
    ensures FixModel(m, n, bounce, previous) == Some(Rung(m.ladder, First(m), n - 2 + (if bounce then 1 else 0)))
  {
    UnknownPastClimbs(m, n, bounce, previous);
    NextTimesCounts(m.ladder, First(m), n - 2 + (if bounce then 1 else 0));
  }

  lemma UnknownPastClimbs(m: Models, n: nat, bounce: bool, previous: Option<string>)
    requires previous == None || previous.value !in m.ladder
    requires m.escalate && n >= 2 && First(m) != ""
    ensures FixModel(m, n, bounce, previous) == Some(NextTimes(m.ladder, First(m), n - 2 + (if bounce then 1 else 0)))
  {
  }

  function Climbs(n: nat): seq<bool> {
    seq(n, i => true)
  }

  lemma {:induction false} CountClimbs(n: nat)
    ensures Count(Climbs(n)) == n
  {
    if n > 0 {
      CountClimbs(n - 1);
      assert Climbs(n)[..n - 1] == Climbs(n - 1);
    }
  }

  ghost predicate IsCounter(ladder: seq<string>, start: string)
    requires start in ladder
  {
    forall bounces :: Climb(ladder, start, bounces) == Rung(ladder, start, Count(bounces))
  }

  /** Climbing is counting, whatever the bounces, if and only if the ladder is stepwise from `start`. */
  lemma CounterIffStepwise(ladder: seq<string>, start: string)
    requires start in ladder
    ensures IsCounter(ladder, start) <==> Stepwise(ladder, start)
  {
    if Stepwise(ladder, start) {
      forall bounces ensures Climb(ladder, start, bounces) == Rung(ladder, start, Count(bounces)) {
        StepwiseCounts(ladder, start, bounces);
      }
    }
    if IsCounter(ladder, start) {
      var base := IndexOf(ladder, start);
      forall i | base <= i < |ladder| ensures NextModel(ladder, ladder[i]) == ladder[Min(|ladder| - 1, i + 1)] {
        var n := i - base;
        CountClimbs(n);
        CountClimbs(n + 1);
        assert Climbs(n + 1)[..n] == Climbs(n);
        assert Climb(ladder, start, Climbs(n)) == ladder[i];
        assert Climb(ladder, start, Climbs(n + 1)) == Rung(ladder, start, n + 1);
      }
    }
  }

  lemma {:induction false} IndexOfDistinct(ladder: seq<string>, i: nat)
    requires i < |ladder| && forall j, k :: 0 <= j < k < |ladder| ==> ladder[j] != ladder[k]
    ensures IndexOf(ladder, ladder[i]) == i
  {
    if i > 0 {
      assert forall j, k :: 0 <= j < k < |ladder[1..]| ==> ladder[1..][j] != ladder[1..][k] by {
        assert forall j :: 0 <= j < |ladder[1..]| ==> ladder[1..][j] == ladder[j + 1];
      }
      IndexOfDistinct(ladder[1..], i - 1);
      assert ladder[1..][i - 1] == ladder[i];
    }
  }

  lemma DistinctIsStepwise(ladder: seq<string>, start: string)
    requires forall j, k :: 0 <= j < k < |ladder| ==> ladder[j] != ladder[k]
    ensures Stepwise(ladder, start)
  {
    forall i | IndexOf(ladder, start) <= i < |ladder|
      ensures NextModel(ladder, ladder[i]) == ladder[Min(|ladder| - 1, i + 1)]
    {
      IndexOfDistinct(ladder, i);
    }
  }

  /** On a ladder without repeated rungs climbing is counting. */
  lemma DistinctIsCounter(ladder: seq<string>, start: string)
    requires start in ladder && forall j, k :: 0 <= j < k < |ladder| ==> ladder[j] != ladder[k]
    ensures IsCounter(ladder, start)
  {
    DistinctIsStepwise(ladder, start);
    CounterIffStepwise(ladder, start);
  }

  lemma {:induction false} IndexOfEarlier(ladder: seq<string>, m: string, j: nat)
    requires j <= |ladder| && m in ladder[..j]
    ensures IndexOf(ladder, m) < j
  {
    if ladder[0] != m {
      assert ladder[..j][1..] == ladder[1..][..j - 1];
      assert m in ladder[1..][..j - 1] by {
        assert ladder[..j] == [ladder[0]] + ladder[..j][1..];
      }
      IndexOfEarlier(ladder[1..], m, j - 1);
    }
  }

  /** A ladder that comes back to an earlier rung at `j` is never climbed past it, whatever the bounces. */
  lemma {:induction false} RepeatedRungNeverClimbsPast(ladder: seq<string>, start: string, j: nat, bounces: seq<bool>)
    requires j < |ladder| && ladder[j] in ladder[..j] && start in ladder[..j]
    ensures Climb(ladder, start, bounces) in ladder[..j]
  {
    if bounces != [] {
      var below := Climb(ladder, start, bounces[..|bounces| - 1]);
      RepeatedRungNeverClimbsPast(ladder, start, j, bounces[..|bounces| - 1]);
      IndexOfEarlier(ladder, below, j);
      var i := IndexOf(ladder, below);
      assert i + 1 < j ==> ladder[i + 1] == ladder[..j][i + 1];
    }
  }
}
