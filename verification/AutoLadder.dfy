/**
 The model ladder as `coord/auto_loop.py` recovers it: by scanning the board for the model the
 last fix round of a chain ran at.  Over every run, with other doors dispatching too, the scan
 finds the last round; between two pinned rounds the ladder is a counter.
 */
module AutoLadder {
  import opened Common
  import opened ModelLadder
  import opened AutoLoop
  import opened AutoVerdicts
  import Strings

  function Usable(model: Option<string>): Option<string> {
    if model == None || Strings.Strip(model.value) == "" then None else Some(Strings.Strip(model.value))
  }

  /** The model of the latest round that has one. */
  function LastUsable(legs: seq<Leg>): Option<string> {
    if legs == [] then None
    else
      var last := legs[|legs| - 1];
      if Usable(last.model).Some? then Usable(last.model) else LastUsable(legs[..|legs| - 1])
  }

  /** The model a round should run at, from the rounds before it on its chain. */
  function Due(m: Models, before: seq<Leg>, leg: Leg): Option<string> {
    if leg.door.Pinned? then leg.door.model else FixModel(m, |before| + 1, leg.bounce, LastUsable(before))
  }

  /** The rounds of a chain are numbered 1, 2, 3, … and each ran at the model that was due. */
  predicate OnRungs(m: Models, legs: seq<Leg>) {
    legs == [] ||
    (var k := |legs| - 1;
     legs[k].iteration == k + 1 && legs[k].model == Due(m, legs[..k], legs[k]) && OnRungs(m, legs[..k]))
  }

  /** The rows of a chain know no other rounds than the recorded ones, and remember their models. */
  predicate RowsAgree(b: Board, c: Chain) {
    var legs := LegsOf(b.legs, c);
    forall r :: r in Rows(b) && r.chain == c ==>
      r.iteration <= |legs|
      && (r.kind in WORK_LIKE && r.iteration >= 1 ==> r.model == legs[r.iteration - 1].model)
  }

  ghost predicate HasRound(rows: seq<Row>, c: Chain, n: nat) {
    exists r :: r in rows && OnChain(r, c) && r.iteration == n
  }

  ghost predicate LegsThere(b: Board, c: Chain) {
    forall n :: 1 <= n <= |LegsOf(b.legs, c)| ==> HasRound(Rows(b), c, n)
  }

  ghost predicate Agrees(m: Models, b: Board, c: Chain) {
    OnRungs(m, LegsOf(b.legs, c)) && RowsAgree(b, c) && LegsThere(b, c)
  }

  /** What enters the board is new work, or a review that mirrors a round; rounds come through the doors. */
  predicate Orderly(b: Board, e: Event) {
    e.Enter? && e.row.iteration > 0 ==>
      e.row.kind !in WORK_LIKE && e.row.iteration <= |LegsOf(b.legs, e.row.chain)|
  }

  predicate OrderlyRun(cfg: Config, b: Board, es: seq<Event>)
    requires Run(cfg, b, es)
    decreases |es|
  {
    es == [] || (Orderly(b, es[0]) && OrderlyRun(cfg, After(cfg, b, es[0]), es[1..]))
  }

  // ── the scan finds the last round ──────────────────────────────────────────

  lemma NextIsOneMore(b: Board, m: Models, c: Chain, work: Row)
    requires Agrees(m, b, c) && work in Rows(b) && work.chain == c
    ensures NextIteration(b, work) == |LegsOf(b.legs, c)| + 1
  {
    NextIsLeast(Rows(b), c, work.iteration);
    if LegsOf(b.legs, c) != [] {
      assert HasRound(Rows(b), c, |LegsOf(b.legs, c)|);
    }
  }

  /** Where the latest usable round is. */
  lemma {:induction false} LastUsableAt(legs: seq<Leg>) returns (k: nat)
    ensures LastUsable(legs) == None ==> forall i :: 0 <= i < |legs| ==> Usable(legs[i].model) == None
    ensures LastUsable(legs).Some? ==>
              k < |legs| && Usable(legs[k].model) == LastUsable(legs)
              && forall i :: k < i < |legs| ==> Usable(legs[i].model) == None
  {
    k := 0;
    if legs != [] {
      var last := |legs| - 1;
      if Usable(legs[last].model).Some? {
        k := last;
      } else {
        k := LastUsableAt(legs[..last]);
        assert forall i :: 0 <= i < last ==> legs[..last][i] == legs[i];
      }
    }
  }

  lemma EligibleRow(b: Board, m: Models, c: Chain, n: nat) returns (j: nat)
    requires Agrees(m, b, c) && 1 <= n <= |LegsOf(b.legs, c)|
    ensures j < |Rows(b)| && OnChain(Rows(b)[j], c) && Rows(b)[j].iteration == n
    ensures Rows(b)[j].model == LegsOf(b.legs, c)[n - 1].model
  {
    assert HasRound(Rows(b), c, n);
    var r :| r in Rows(b) && OnChain(r, c) && r.iteration == n;
    j :| 0 <= j < |Rows(b)| && Rows(b)[j] == r;
  }

  /** The board scan below the next round answers what the rounds themselves say. */
  lemma ScanFindsLastRound(m: Models, b: Board, c: Chain)
    requires Agrees(m, b, c)
    ensures LastModel(Rows(b), c, |LegsOf(b.legs, c)| + 1) == LastUsable(LegsOf(b.legs, c))
  {
    var rows, legs := Rows(b), LegsOf(b.legs, c);
    var i := LastModelIsLatest(rows, c, |legs| + 1);
    var k := LastUsableAt(legs);
    if LastUsable(legs).Some? {
      var j := EligibleRow(b, m, c, k + 1);
      assert Eligible(rows[j], c, |legs| + 1);
      FoundRow(b, m, c, i);
      assert rows[i].iteration >= k + 1;
    } else if LastModel(rows, c, |legs| + 1).Some? {
      FoundRow(b, m, c, i);
    }
  }

  /** A row the scan stops at is a round with a usable model. */
  lemma FoundRow(b: Board, m: Models, c: Chain, i: nat)
    requires Agrees(m, b, c) && i < |Rows(b)| && Eligible(Rows(b)[i], c, |LegsOf(b.legs, c)| + 1)
    ensures var r, legs := Rows(b)[i], LegsOf(b.legs, c);
            1 <= r.iteration <= |legs| && Usable(legs[r.iteration - 1].model) == UsableModel(r) != None
  {
    assert Rows(b)[i] in Rows(b);
  }

  // ── every event keeps it ───────────────────────────────────────────────────

  lemma SameRowsAgree(m: Models, b: Board, c: Board, chain: Chain)
    requires Agrees(m, b, chain) && SameRows(b, c) && c.legs == b.legs
    ensures Agrees(m, c, chain)
  {
    forall r | r in Rows(c) && r.chain == chain
      ensures r.iteration <= |LegsOf(c.legs, chain)|
           && (r.kind in WORK_LIKE && r.iteration >= 1 ==> r.model == LegsOf(c.legs, chain)[r.iteration - 1].model)
    {
      var i :| 0 <= i < |Rows(c)| && Rows(c)[i] == r;
      assert Rows(b)[i] in Rows(b);
    }
    forall n | 1 <= n <= |LegsOf(c.legs, chain)| ensures HasRound(Rows(c), chain, n) {
      var i := EligibleRow(b, m, chain, n);
      assert Rows(c)[i] in Rows(c);
    }
  }

  lemma FinishAgrees(m: Models, cfg: Config, b: Board, k: nat, chain: Chain)
    requires Agrees(m, b, chain) && k < |b.active|
    ensures Agrees(m, After(cfg, b, Finish(k)), chain)
  {
    var c := After(cfg, b, Finish(k));
    assert b.active == b.active[..k] + [b.active[k]] + b.active[k + 1..];
    assert forall r :: r in Rows(c) <==> r in Rows(b);
    KeepsRounds(b, c, chain);
  }

  lemma KeepsRounds(b: Board, c: Board, chain: Chain)
    requires LegsThere(b, chain) && c.legs == b.legs && forall r :: r in Rows(b) ==> r in Rows(c)
    ensures LegsThere(c, chain)
  {
    forall n | 1 <= n <= |LegsOf(c.legs, chain)| ensures HasRound(Rows(c), chain, n) {
      assert HasRound(Rows(b), chain, n);
    }
  }

  lemma EnterAgrees(m: Models, b: Board, row: Row, chain: Chain)
    requires Agrees(m, b, chain) && Orderly(b, Enter(row))
    ensures Agrees(m, b.(active := b.active + [row]), chain)
  {
    var c := b.(active := b.active + [row]);
    assert forall r :: r in Rows(c) <==> r in Rows(b) || r == row;
    KeepsRounds(b, c, chain);
  }

  lemma LegsOfAppend(legs: seq<Leg>, leg: Leg, chain: Chain)
    ensures LegsOf(legs + [leg], chain) == LegsOf(legs, chain) + (if leg.chain == chain then [leg] else [])
  {
    assert (legs + [leg])[..|legs|] == legs;
  }

  lemma RoundOnRungs(m: Models, legs: seq<Leg>, leg: Leg, chain: Chain)
    requires OnRungs(m, LegsOf(legs, chain))
    requires var own := LegsOf(legs, chain); leg.chain == chain ==> leg.iteration == |own| + 1 && leg.model == Due(m, own, leg)
    ensures OnRungs(m, LegsOf(legs + [leg], chain))
  {
    var own, more := LegsOf(legs, chain), LegsOf(legs + [leg], chain);
    LegsOfAppend(legs, leg, chain);
    if leg.chain == chain {
      assert more[..|own|] == own && more[|own|] == leg;
    } else {
      assert more == own;
    }
  }

  /** The board `c` is `b` with one more row, the round of `leg`. */
  ghost predicate HasOneMore(b: Board, c: Board, row: Row, leg: Leg) {
    && (forall r :: r in Rows(c) <==> r in Rows(b) || r == row)
    && OnChain(row, leg.chain) && row.iteration == leg.iteration && row.model == leg.model && c.legs == b.legs + [leg]
  }

  lemma RoundRowsAgree(b: Board, c: Board, row: Row, leg: Leg, chain: Chain)
    requires RowsAgree(b, chain) && HasOneMore(b, c, row, leg)
    requires leg.chain == chain ==> leg.iteration == |LegsOf(b.legs, chain)| + 1
    ensures RowsAgree(c, chain)
  {
    LegsOfAppend(b.legs, leg, chain);
    assert LegsOf(b.legs, chain) <= LegsOf(c.legs, chain);
  }

  lemma RoundLegsThere(b: Board, c: Board, row: Row, leg: Leg, chain: Chain)
    requires LegsThere(b, chain) && HasOneMore(b, c, row, leg)
    requires leg.chain == chain ==> leg.iteration == |LegsOf(b.legs, chain)| + 1
    ensures LegsThere(c, chain)
  {
    LegsOfAppend(b.legs, leg, chain);
    forall i | 1 <= i <= |LegsOf(c.legs, chain)| ensures HasRound(Rows(c), chain, i) {
      if leg.chain == chain && i == leg.iteration {
        assert row in Rows(c);
      } else {
        assert HasRound(Rows(b), chain, i);
      }
    }
  }

  /** A round of another chain, or the next one of this chain at the model that is due. */
  lemma RoundAgrees(m: Models, b: Board, work: Row, n: nat, model: Option<string>, bounce: bool, door: Door, sent: Sent, chain: Chain)
    requires Agrees(m, b, chain)
    requires var legs := LegsOf(b.legs, chain);
             work.chain == chain ==> n == |legs| + 1 && model == Due(m, legs, Leg(chain, n, model, bounce, door))
    ensures Agrees(m, AddRound(b, work, n, model, bounce, door, sent), chain)
  {
    var c, row, leg := AddRound(b, work, n, model, bounce, door, sent), FixRow(work, n, model, sent),
                       Leg(work.chain, n, model, bounce, door);
    assert HasOneMore(b, c, row, leg);
    RoundOnRungs(m, b.legs, leg, chain);
    RoundRowsAgree(b, c, row, leg, chain);
    RoundLegsThere(b, c, row, leg, chain);
  }

  /** What the doors compute is what is due. */
  lemma DueAsComputed(cfg: Config, b: Board, work: Row, bounce: bool, door: Door, chain: Chain)
    requires Agrees(cfg.models, b, chain) && work in Rows(b) && work.chain == chain && !door.Pinned?
    ensures var legs, model := LegsOf(b.legs, chain), NextFixModel(cfg, b, work, bounce);
            && NextIteration(b, work) == |legs| + 1
            && model == Due(cfg.models, legs, Leg(chain, |legs| + 1, model, bounce, door))
  {
    NextIsOneMore(b, cfg.models, chain, work);
    ScanFindsLastRound(cfg.models, b, chain);
  }

  lemma MarkAgrees(m: Models, b: Board, id: Id, ch: Change, chain: Chain)
    requires Agrees(m, b, chain) && UniqueIds(b)
    ensures Agrees(m, MarkOn(b, id, ch), chain)
  {
    MarkKeepsRows(b, id, ch);
    SameRowsAgree(m, b, MarkOn(b, id, ch), chain);
  }

  lemma DropUatAgrees(m: Models, b: Board, id: Id, chain: Chain)
    requires Agrees(m, b, chain)
    ensures Agrees(m, MarkOn(b, id, DropUat), chain)
  {
    MarkedRows(b, id, DropUat);
    SameRowsAgree(m, b, MarkOn(b, id, DropUat), chain);
  }

  lemma BounceAgrees(cfg: Config, b: Board, work: Id, f: BounceFacts, chain: Chain)
    requires UniqueIds(b) && Agrees(cfg.models, b, chain)
    ensures Agrees(cfg.models, AfterBounce(cfg, b, work, f), chain)
  {
    FindFinds(Rows(b), work);
    var row := Find(Rows(b), work);
    if row.Some? {
      MarkAgrees(cfg.models, b, work, TakeVerdict(f.verdict), chain);
      BounceUnfolds(cfg, b, row.value, f);
      if f.sent.Some? {
        FixRoundAgrees(cfg, b, MarkOn(b, work, TakeVerdict(f.verdict)), row.value, f, chain);
      }
    }
  }

  lemma FixRoundAgrees(cfg: Config, b: Board, settled: Board, work: Row, f: BounceFacts, chain: Chain)
    requires Agrees(cfg.models, b, chain) && Agrees(cfg.models, settled, chain) && settled.legs == b.legs
    requires work in Rows(b) && f.sent.Some?
    ensures var n, model := NextIteration(b, work), NextFixModel(cfg, b, work, f.bounce);
            Agrees(cfg.models,
                   MarkOn(AddRound(settled, work, n, model, f.bounce, Auto, f.sent.value), work.id, DropUat), chain)
  {
    if work.chain == chain {
      DueAsComputed(cfg, b, work, f.bounce, Auto, chain);
    }
    OwnRoundAgrees(cfg.models, settled, work, NextIteration(b, work), NextFixModel(cfg, b, work, f.bounce), f, chain);
  }

  lemma OwnRoundAgrees(m: Models, b: Board, work: Row, n: nat, model: Option<string>, f: BounceFacts, chain: Chain)
    requires Agrees(m, b, chain) && f.sent.Some?
    requires var legs := LegsOf(b.legs, chain);
             work.chain == chain ==> n == |legs| + 1 && model == Due(m, legs, Leg(chain, n, model, f.bounce, Auto))
    ensures Agrees(m, MarkOn(AddRound(b, work, n, model, f.bounce, Auto, f.sent.value), work.id, DropUat), chain)
  {
    RoundAgrees(m, b, work, n, model, f.bounce, Auto, f.sent.value, chain);
    DropUatAgrees(m, AddRound(b, work, n, model, f.bounce, Auto, f.sent.value), work.id, chain);
  }

  lemma OtherDoorAgrees(cfg: Config, b: Board, work: Id, bounce: bool, door: Door, sent: Sent, chain: Chain)
    requires Agrees(cfg.models, b, chain)
    ensures Agrees(cfg.models, AfterOtherDoor(cfg, b, work, bounce, door, sent), chain)
  {
    var row := Find(Rows(b), work);
    FindFinds(Rows(b), work);
    if row.Some? {
      if row.value.chain == chain {
        NextIsOneMore(b, cfg.models, chain, row.value);
        if !door.Pinned? {
          DueAsComputed(cfg, b, row.value, bounce, door, chain);
        }
      }
      RoundAgrees(cfg.models, b, row.value, NextIteration(b, row.value),
                  if door.Pinned? then door.model else NextFixModel(cfg, b, row.value, bounce), bounce, door, sent, chain);
    }
  }

  lemma FixAgrees(cfg: Config, b: Board, fix: Id, f: FixFacts, chain: Chain)
    requires Inv(cfg, b) && Agrees(cfg.models, b, chain)
    ensures Agrees(cfg.models, AfterFix(cfg, b, fix, f), chain)
  {
    match FixOutcome(cfg, b, fix, f)
    case FixTerminal => MarkAgrees(cfg.models, b, fix, SetReview(Some("done")), chain);
    case CapHit => MarkAgrees(cfg.models, b, fix, SetReview(Some("cap_hit")), chain);
    case GateHeld => MarkAgrees(cfg.models, b, fix, SetReview(Some("pending")), chain);
    case ReviewDispatched =>
      MarkKeepsRows(b, fix, SetReview(Some(if f.review == Dispatched then "dispatched" else "done")));
      SameRowsAgree(cfg.models, b, AfterFix(cfg, b, fix, f), chain);
    case _ =>
  }

  lemma EventAgrees(cfg: Config, b: Board, e: Event, chain: Chain)
    requires Inv(cfg, b) && Agrees(cfg.models, b, chain) && Possible(b, e) && Orderly(b, e)
    ensures Agrees(cfg.models, After(cfg, b, e), chain)
  {
    match e
    case Bounce(work, f) => BounceAgrees(cfg, b, work, f, chain);
    case FixDone(fix, f) => FixAgrees(cfg, b, fix, f, chain);
    case Finish(k) => FinishAgrees(cfg.models, cfg, b, k, chain);
    case Enter(row) => EnterAgrees(cfg.models, b, row, chain);
    case Settle(id, state) =>
      MarkKeepsRows(b, id, SetReview(state));
      SameRowsAgree(cfg.models, b, After(cfg, b, e), chain);
    case Tested(id, passed) => MarkAgrees(cfg.models, b, id, SetTest(passed), chain);
    case OtherDoor(work, worthIt, door, sent) => OtherDoorAgrees(cfg, b, work, worthIt, door, sent, chain);
  }

  /** Over every run, through whichever doors: each round ran at the model due after the rounds before it. */
  lemma {:induction false} EveryRunAgrees(cfg: Config, b: Board, es: seq<Event>, chain: Chain)
    requires Inv(cfg, b) && Agrees(cfg.models, b, chain)
    requires Run(cfg, b, es) && OrderlyRun(cfg, b, es)
    ensures Agrees(cfg.models, Final(cfg, b, es), chain)
    decreases |es|
  {
    if es != [] {
      EventKeepsInv(cfg, b, es[0]);
      EventAgrees(cfg, b, es[0], chain);
      EveryRunAgrees(cfg, After(cfg, b, es[0]), es[1..], chain);
    }
  }

  // ── the ladder is a counter ────────────────────────────────────────────────

  /** Rungs are spelled without surrounding white space. */
  predicate CleanLadder(m: Models) {
    forall r :: r in m.ladder ==> r != "" && Strings.Strip(r) == r
  }

  predicate Escalating(m: Models) {
    m.escalate && First(m) in m.ladder && CleanLadder(m)
  }

  function BouncesOf(legs: seq<Leg>): seq<bool> {
    seq(|legs|, i requires 0 <= i < |legs| => legs[i].bounce)
  }

  predicate Unpinned(legs: seq<Leg>) {
    forall l :: l in legs ==> !l.door.Pinned?
  }

  /** An unpinned round after one on a rung. */
  lemma NextRung(m: Models, legs: seq<Leg>, rung: string)
    requires Escalating(m) && OnRungs(m, legs) && |legs| >= 2 && !legs[|legs| - 1].door.Pinned?
    requires legs[|legs| - 2].model == Some(rung) && rung in m.ladder
    ensures legs[|legs| - 1].model == Some(if legs[|legs| - 1].bounce then NextModel(m.ladder, rung) else rung)
  {
    var before := legs[..|legs| - 1];
    assert before[|before| - 1] == legs[|legs| - 2];
    assert LastUsable(before) == Some(rung);
  }

  /** From a round on a rung, unpinned rounds climb by their bounces. */
  lemma {:induction false} RoundsClimb(m: Models, legs: seq<Leg>, k: nat, rung: string)
    requires Escalating(m) && OnRungs(m, legs) && 1 <= k <= |legs|
    requires legs[k - 1].model == Some(rung) && rung in m.ladder && Unpinned(legs[k..])
    ensures legs[|legs| - 1].model == Some(Climb(m.ladder, rung, BouncesOf(legs[k..])))
    decreases |legs|
  {
    if k < |legs| {
      var before := legs[..|legs| - 1];
      assert before[k - 1] == legs[k - 1] && before[|before| - 1] == legs[|legs| - 2];
      StillUnpinned(legs, k);
      RoundsClimb(m, before, k, rung);
      RoundClimbs(m, legs, k, rung);
    } else {
      assert legs[k..] == [] && BouncesOf([]) == [];
    }
  }

  lemma RoundClimbs(m: Models, legs: seq<Leg>, k: nat, rung: string)
    requires Escalating(m) && OnRungs(m, legs) && 1 <= k < |legs| && !legs[|legs| - 1].door.Pinned?
    requires rung in m.ladder
    requires legs[|legs| - 2].model == Some(Climb(m.ladder, rung, BouncesOf(legs[..|legs| - 1][k..])))
    ensures legs[|legs| - 1].model == Some(Climb(m.ladder, rung, BouncesOf(legs[k..])))
  {
    var bounces := BouncesOf(legs[..|legs| - 1][k..]);
    ClimbStaysOn(m.ladder, rung, bounces);
    NextRung(m, legs, Climb(m.ladder, rung, bounces));
    OneMoreBounce(m.ladder, rung, legs, k);
  }

  lemma StillUnpinned(legs: seq<Leg>, k: nat)
    requires k < |legs| && Unpinned(legs[k..])
    ensures Unpinned(legs[..|legs| - 1][k..]) && !legs[|legs| - 1].door.Pinned?
  {
    var n := |legs|;
    assert legs[n - 1] == legs[k..][n - 1 - k];
    forall l | l in legs[..n - 1][k..] ensures !l.door.Pinned? {
      var i :| 0 <= i < n - 1 - k && legs[..n - 1][k..][i] == l;
      assert l == legs[k..][i];
    }
  }

  lemma OneMoreBounce(ladder: seq<string>, rung: string, legs: seq<Leg>, k: nat)
    requires k < |legs|
    ensures var below := Climb(ladder, rung, BouncesOf(legs[..|legs| - 1][k..]));
            Climb(ladder, rung, BouncesOf(legs[k..]))
            == if legs[|legs| - 1].bounce then NextModel(ladder, below) else below
  {
    var more := BouncesOf(legs[k..]);
    assert more[..|more| - 1] == BouncesOf(legs[..|legs| - 1][k..]);
  }

  /** A board on which no round has been recorded and no row claims one. */
  predicate Untouched(b: Board) {
    Fresh(b) && forall r :: r in Rows(b) ==> r.iteration == 0
  }

  lemma {:induction false} RungsBefore(m: Models, legs: seq<Leg>, n: nat)
    requires OnRungs(m, legs) && n <= |legs|
    ensures OnRungs(m, legs[..n])
    decreases |legs|
  {
    if n == |legs| {
      assert legs[..n] == legs;
    } else {
      assert legs[..|legs| - 1][..n] == legs[..n];
      RungsBefore(m, legs[..|legs| - 1], n);
    }
  }

  /** From round `k` on a rung to round `n`. */
  lemma RoundsCount(m: Models, legs: seq<Leg>, k: nat, n: nat, rung: string)
    requires Escalating(m) && OnRungs(m, legs) && 1 <= k <= n <= |legs|
    requires rung in m.ladder && Stepwise(m.ladder, rung)
    requires legs[k - 1].model == Some(rung) && Unpinned(legs[k..n])
    ensures legs[n - 1].model == Some(Rung(m.ladder, rung, Count(BouncesOf(legs[k..n]))))
  {
    var some := legs[..n];
    RungsBefore(m, legs, n);
    assert some[k..] == legs[k..n] && some[k - 1] == legs[k - 1] && some[n - 1] == legs[n - 1];
    RoundsClimb(m, some, k, rung);
    StepwiseCounts(m.ladder, rung, BouncesOf(legs[k..n]));
  }

  lemma RungsOverRuns(cfg: Config, b: Board, es: seq<Event>, chain: Chain)
    requires Untouched(b) && Run(cfg, b, es) && OrderlyRun(cfg, b, es)
    ensures OnRungs(cfg.models, LegsOf(Final(cfg, b, es).legs, chain))
  {
    EveryRunAgrees(cfg, b, es, chain);
  }

  /**
   Over every run: from any round `k` on a rung, as long as no round is pinned, round `n` runs at the
   rung of round `k` plus the bounces since, capped at the top.
   */
  lemma RungsCount(cfg: Config, b: Board, es: seq<Event>, chain: Chain, k: nat, n: nat, rung: string)
    requires Escalating(cfg.models) && rung in cfg.models.ladder && Stepwise(cfg.models.ladder, rung)
    requires Untouched(b) && Run(cfg, b, es) && OrderlyRun(cfg, b, es)
    requires 1 <= k <= n <= |LegsOf(Final(cfg, b, es).legs, chain)|
    requires var legs := LegsOf(Final(cfg, b, es).legs, chain);
             legs[k - 1].model == Some(rung) && Unpinned(legs[k..n])
    ensures var legs := LegsOf(Final(cfg, b, es).legs, chain);
            legs[n - 1].model == Some(Rung(cfg.models.ladder, rung, Count(BouncesOf(legs[k..n]))))
  {
    RungsOverRuns(cfg, b, es, chain);
    RoundsCount(cfg.models, LegsOf(Final(cfg, b, es).legs, chain), k, n, rung);
  }

  /**
   In particular, when no round of the chain is pinned: round `n` runs at the rung `base + bounces`,
   capped at the top, where only the bounces of rounds 2 to `n` count.
   */
  lemma LadderIsCounter(cfg: Config, b: Board, es: seq<Event>, chain: Chain, n: nat)
    requires Escalating(cfg.models) && Stepwise(cfg.models.ladder, First(cfg.models))
    requires Untouched(b) && Run(cfg, b, es) && OrderlyRun(cfg, b, es)
    requires 1 <= n <= |LegsOf(Final(cfg, b, es).legs, chain)|
    requires Unpinned(LegsOf(Final(cfg, b, es).legs, chain)[..n])
    ensures var legs := LegsOf(Final(cfg, b, es).legs, chain);
            && legs[n - 1].iteration == n
            && legs[n - 1].model
               == Some(Rung(cfg.models.ladder, First(cfg.models), Count(BouncesOf(legs[1..n]))))
  {
    RungsOverRuns(cfg, b, es, chain);
    FromTheFirst(cfg.models, LegsOf(Final(cfg, b, es).legs, chain), n);
  }

  /**
   Over every run, an unpinned first round runs at the configured model, or at the bottom rung when
   none is configured; without escalation no unpinned round asks for a model.
   */
  lemma FirstRoundModel(cfg: Config, b: Board, es: seq<Event>, chain: Chain, n: nat)
    requires Untouched(b) && Run(cfg, b, es) && OrderlyRun(cfg, b, es)
    requires 1 <= n <= |LegsOf(Final(cfg, b, es).legs, chain)|
    requires !LegsOf(Final(cfg, b, es).legs, chain)[n - 1].door.Pinned?
    ensures var m, model := cfg.models, LegsOf(Final(cfg, b, es).legs, chain)[n - 1].model;
            && (!m.escalate || (m.default == "" && m.ladder == []) ==> model == None)
            && (n == 1 && m.escalate && m.default != "" ==> model == Some(m.default))
            && (n == 1 && m.escalate && m.default == "" && m.ladder != [] && m.ladder[0] != "" ==> model == Some(m.ladder[0]))
  {
    RungsOverRuns(cfg, b, es, chain);
    var legs := LegsOf(Final(cfg, b, es).legs, chain);
    RungsBefore(cfg.models, legs, n);
    assert legs[..n][n - 1] == legs[n - 1];
  }

  lemma FromTheFirst(m: Models, legs: seq<Leg>, n: nat)
    requires Escalating(m) && Stepwise(m.ladder, First(m)) && OnRungs(m, legs)
    requires 1 <= n <= |legs| && Unpinned(legs[..n])
    ensures legs[n - 1].iteration == n
    ensures legs[n - 1].model == Some(Rung(m.ladder, First(m), Count(BouncesOf(legs[1..n]))))
  {
    RungsBefore(m, legs, n);
    RungsBefore(m, legs, 1);
    assert legs[..n][n - 1] == legs[n - 1] && legs[..1][0] == legs[0] == legs[..n][0];
    assert Unpinned(legs[1..n]) by {
      assert legs[1..n] == legs[..n][1..];
    }
    RoundsCount(m, legs, 1, n, First(m));
  }

  lemma {:induction false} CountGrows(a: seq<bool>, b: seq<bool>)
    ensures Count(a) <= Count(a + b)
    decreases |b|
  {
    if b == [] {
      assert a + b == a;
    } else {
      assert (a + b)[..|a + b| - 1] == a + b[..|b| - 1];
      CountGrows(a, b[..|b| - 1]);
    }
  }

  lemma RungsGrow(ladder: seq<string>, start: string, few: nat, many: nat) returns (low: nat, high: nat)
    requires start in ladder && few <= many
    ensures low <= high < |ladder|
    ensures Rung(ladder, start, few) == ladder[low] && Rung(ladder, start, many) == ladder[high]
  {
    low := Min(|ladder| - 1, IndexOf(ladder, start) + few);
    high := Min(|ladder| - 1, IndexOf(ladder, start) + many);
  }

  lemma BouncesGrow(legs: seq<Leg>, i: nat, j: nat)
    requires 1 <= i <= j <= |legs|
    ensures Count(BouncesOf(legs[1..i])) <= Count(BouncesOf(legs[1..j]))
  {
    assert BouncesOf(legs[1..j]) == BouncesOf(legs[1..i]) + BouncesOf(legs[i..j]);
    CountGrows(BouncesOf(legs[1..i]), BouncesOf(legs[i..j]));
  }

  /** So such a chain never descends: a later round runs at the same rung or a higher one. */
  lemma LadderNeverDescends(cfg: Config, b: Board, es: seq<Event>, chain: Chain, i: nat, j: nat) returns (low: nat, high: nat)
    requires Escalating(cfg.models) && Stepwise(cfg.models.ladder, First(cfg.models))
    requires Untouched(b) && Run(cfg, b, es) && OrderlyRun(cfg, b, es)
    requires 1 <= i <= j <= |LegsOf(Final(cfg, b, es).legs, chain)|
    requires Unpinned(LegsOf(Final(cfg, b, es).legs, chain)[..j])
    ensures low <= high < |cfg.models.ladder|
    ensures var legs := LegsOf(Final(cfg, b, es).legs, chain);
            legs[i - 1].model == Some(cfg.models.ladder[low]) && legs[j - 1].model == Some(cfg.models.ladder[high])
  {
    var legs := LegsOf(Final(cfg, b, es).legs, chain);
    assert forall l :: l in legs[..i] ==> l in legs[..j];
    LadderIsCounter(cfg, b, es, chain, i);
    LadderIsCounter(cfg, b, es, chain, j);
    BouncesGrow(legs, i, j);
    low, high := RungsGrow(cfg.models.ladder, First(cfg.models),
                           Count(BouncesOf(legs[1..i])), Count(BouncesOf(legs[1..j])));
  }
}
