/**
 What one verdict and one finished fix round come to, in terms of the rows on the board: the
 conditions of `coord/auto_loop.py` spelled out, and over every run the reviews that were earned.
 */
module AutoVerdicts {
  import opened Common
  import opened ModelLadder
  import opened AutoLoop

  /** The rows of `c` are those of `b`, but for `row`, which is `now` instead. */
  ghost predicate OnlyRow(b: Board, c: Board, row: Row, now: Row) {
    && |c.active| == |b.active| && |Rows(c)| == |Rows(b)|
    && forall i :: 0 <= i < |Rows(b)| ==> Rows(c)[i] == if Rows(b)[i] == row then now else Rows(b)[i]
  }

  lemma {:induction false} FindIs(rows: seq<Row>, row: Row)
    requires row in rows && forall q :: q in rows && q.id == row.id ==> q == row
    ensures Find(rows, row.id) == Some(row)
  {
    if rows[0].id != row.id {
      FindIs(rows[1..], row);
    }
  }

  lemma MarkIsOnlyRow(b: Board, row: Row, ch: Change)
    requires UniqueIds(b) && row in Rows(b)
    ensures OnlyRow(b, MarkOn(b, row.id, ch), row, Changed(row, ch))
  {
    MarkedRows(b, row.id, ch);
    MarkMembers(b.active, row.id, ch);
    forall i | 0 <= i < |Rows(b)|
      ensures Rows(MarkOn(b, row.id, ch))[i] == if Rows(b)[i] == row then Changed(row, ch) else Rows(b)[i]
    {
      assert Rows(b)[i] in Rows(b);
    }
  }

  // ── a finished fix round ───────────────────────────────────────────────────

  /** The loop may act on the row: it is on, and the row is headless and without a review. */
  predicate Unhandled(cfg: Config, row: Row) {
    cfg.autoLoop && (row.reviewState == None || row.reviewState == Some("pending")) && !row.interactive
  }

  /** `c` is `b` with another review state on `row`, and nothing else. */
  ghost predicate OnlyState(b: Board, c: Board, row: Row, state: string) {
    && OnlyRow(b, c, row, row.(reviewState := Some(state)))
    && c.legs == b.legs && c.resets == b.resets
  }

  lemma StateOnly(b: Board, row: Row, state: string, reviews: seq<Id>)
    requires UniqueIds(b) && row in Rows(b)
    ensures OnlyState(b, MarkOn(b, row.id, SetReview(Some(state))).(reviews := reviews), row, state)
  {
    MarkIsOnlyRow(b, row, SetReview(Some(state)));
  }

  /** All that a review of this loop requires of the row and of the world. */
  predicate Earned(cfg: Config, row: Row, f: FixFacts) {
    && Unhandled(cfg, row) && !f.terminal && row.iteration < cfg.maxIterations
    && (cfg.testFirst ==> row.tested) && f.review != NoReview
  }

  /** The board after a finished round, when `row` is the one that is found. */
  lemma FixUnfolds(cfg: Config, b: Board, row: Row, f: FixFacts)
    requires Find(Rows(b), row.id) == Some(row)
    ensures AfterFix(cfg, b, row.id, f) ==
            if !Unhandled(cfg, row) then b
            else if f.terminal then MarkOn(b, row.id, SetReview(Some("done")))
            else if row.iteration >= cfg.maxIterations then MarkOn(b, row.id, SetReview(Some("cap_hit")))
            else if cfg.testFirst && !row.tested then MarkOn(b, row.id, SetReview(Some("pending")))
            else if f.review == NoReview then b
            else MarkOn(b, row.id, SetReview(Some(if f.review == Dispatched then "dispatched" else "done")))
                 .(reviews := b.reviews + [row.id])
    ensures FixOutcome(cfg, b, row.id, f) == ReviewDispatched <==> Earned(cfg, row, f)
  {
  }

  /**
   A finished round below the cap gets exactly one review when it is tested, or need not be, and
   one can be had.  Every other case asks for none, and says what is left on the board instead.
   */
  lemma FixExactly(cfg: Config, b: Board, row: Row, f: FixFacts)
    requires UniqueIds(b) && row in Rows(b)
    ensures var c := AfterFix(cfg, b, row.id, f);
            if !Unhandled(cfg, row) then c == b
            else if f.terminal then c.reviews == b.reviews && OnlyState(b, c, row, "done")
            else if row.iteration >= cfg.maxIterations then c.reviews == b.reviews && OnlyState(b, c, row, "cap_hit")
            else if cfg.testFirst && !row.tested then c.reviews == b.reviews && OnlyState(b, c, row, "pending")
            else if f.review == NoReview then c == b
            else c.reviews == b.reviews + [row.id]
                 && OnlyState(b, c, row, if f.review == Dispatched then "dispatched" else "done")
    ensures FixOutcome(cfg, b, row.id, f) == ReviewDispatched <==> Earned(cfg, row, f)
  {
    FindIs(Rows(b), row);
    FixUnfolds(cfg, b, row, f);
    StateOnly(b, row, "done", b.reviews);
    StateOnly(b, row, "cap_hit", b.reviews);
    StateOnly(b, row, "pending", b.reviews);
    StateOnly(b, row, if f.review == Dispatched then "dispatched" else "done", b.reviews + [row.id]);
  }

  lemma EarnedOnly(cfg: Config, b: Board, e: Event)
    requires UniqueIds(b) && Possible(b, e) && After(cfg, b, e).reviews != b.reviews
    ensures e.FixDone? && After(cfg, b, e).reviews == b.reviews + [e.fix]
    ensures exists row :: row in Rows(b) && row.id == e.fix && Earned(cfg, row, e.facts)
  {
    if e.FixDone? {
      FindFinds(Rows(b), e.fix);
      FixExactly(cfg, b, Find(Rows(b), e.fix).value, e.facts);
    }
  }

  /**
   Over every run, whatever tests and states come and go: every review that was asked for was earned
   at that very moment by its row; in particular, where tests come first, the row was tested then.
   */
  lemma {:induction false} EveryReviewIsEarned(cfg: Config, b: Board, es: seq<Event>, id: Id) returns (k: nat)
    requires Inv(cfg, b) && Run(cfg, b, es) && Times(Final(cfg, b, es).reviews, id) > Times(b.reviews, id)
    ensures k < |es| && Run(cfg, b, es[..k]) && es[k].FixDone? && es[k].fix == id
    ensures exists row :: row in Rows(Final(cfg, b, es[..k])) && row.id == id && Earned(cfg, row, es[k].facts)
    decreases |es|
  {
    var next := After(cfg, b, es[0]);
    EventKeepsInv(cfg, b, es[0]);
    if Times(next.reviews, id) > Times(b.reviews, id) {
      EarnedOnly(cfg, b, es[0]);
      k := 0;
    } else {
      var j := EveryReviewIsEarned(cfg, next, es[1..], id);
      k := j + 1;
      assert es[..k][1..] == es[1..][..j];
    }
  }

  /** Conversely, each earned review is asked for, once, wherever in a run it is earned. */
  lemma EarnedReviewIsAskedFor(cfg: Config, b: Board, es: seq<Event>, row: Row, f: FixFacts)
    requires Inv(cfg, b) && Run(cfg, b, es) && row in Rows(Final(cfg, b, es)) && Earned(cfg, row, f)
    ensures var t := Final(cfg, b, es);
            Times(AfterFix(cfg, t, row.id, f).reviews, row.id) == Times(t.reviews, row.id) + 1
    ensures var q := row.(reviewState := Some(if f.review == Dispatched then "dispatched" else "done"));
            q in Rows(AfterFix(cfg, Final(cfg, b, es), row.id, f))
  {
    EveryRunKeepsInv(cfg, b, es);
    var t := Final(cfg, b, es);
    FixExactly(cfg, t, row, f);
    var i :| 0 <= i < |Rows(t)| && Rows(t)[i] == row;
    assert Rows(AfterFix(cfg, t, row.id, f))[i] in Rows(AfterFix(cfg, t, row.id, f));
  }

  // ── a request-changes verdict ──────────────────────────────────────────────

  /** Another round is due: nothing stops it, a worker took it, and no round of the chain has reached the cap. */
  predicate RoundIsDue(cfg: Config, b: Board, work: Row, f: BounceFacts) {
    && !f.terminal && !f.ceilingBlocked && !f.needsRedesign && f.sent.Some?
    && work.iteration < cfg.maxIterations
    && forall q :: q in Rows(b) && q.kind in WORK_LIKE && q.chain == work.chain ==> q.iteration < cfg.maxIterations
  }

  /** The new round: numbered one above `work` and every round of its chain, by a number no smaller than it must be. */
  predicate NextRound(b: Board, work: Row, n: nat) {
    && work.iteration < n
    && (forall q :: q in Rows(b) && q.kind in WORK_LIKE && q.chain == work.chain ==> q.iteration < n)
    && (work.iteration == n - 1 || exists q :: q in Rows(b) && q.kind in WORK_LIKE && q.chain == work.chain && q.iteration == n - 1)
  }

  lemma NextIterationIsNext(cfg: Config, b: Board, work: Row)
    ensures NextRound(b, work, NextIteration(b, work))
    ensures NextIteration(b, work) <= cfg.maxIterations <==>
              work.iteration < cfg.maxIterations
              && forall q :: q in Rows(b) && q.kind in WORK_LIKE && q.chain == work.chain ==> q.iteration < cfg.maxIterations
  {
    NextIsLeast(Rows(b), work.chain, work.iteration);
  }

  /** The verdict settles the row it is about; with a new round on the way, what its users accepted is withdrawn. */
  function Settled(work: Row, f: BounceFacts, again: bool): Row {
    work.(reviewState := Some("done"), verdict := f.verdict, uat := if again then None else work.uat)
  }

  /** The board `c` is `b` with the round `n` for `work`. */
  ghost predicate OneMoreRound(cfg: Config, b: Board, c: Board, work: Row, f: BounceFacts, n: nat)
    requires f.sent.Some?
  {
    var model := FixModel(cfg.models, n, f.bounce, LastModel(Rows(b), work.chain, n));
    var kind := if work.kind == "test-author" || work.kind == "mock-author" then work.kind else "work";
    && |c.active| == |b.active| + 1 && |c.completed| == |b.completed|
    && c.active[|b.active|] == Row(f.sent.value.id, work.chain, kind, n, model, f.sent.value.at, None, None, None, false, false)
    && OnlyRow(b, c.(active := c.active[..|b.active|]), work, Settled(work, f, true))
    && c.legs == b.legs + [Leg(work.chain, n, model, f.bounce, Auto)]
  }

  lemma TwoMarks(b: Board, work: Row, f: BounceFacts)
    requires UniqueIds(b) && work in Rows(b)
    ensures OnlyRow(b, MarkOn(MarkOn(b, work.id, TakeVerdict(f.verdict)), work.id, DropUat), work, Settled(work, f, true))
  {
    MarkIsOnlyRow(b, work, TakeVerdict(f.verdict));
    var settled := MarkOn(b, work.id, TakeVerdict(f.verdict));
    MarkedRows(settled, work.id, DropUat);
    MarkMembers(settled.active, work.id, DropUat);
    forall i | 0 <= i < |Rows(b)|
      ensures Rows(MarkOn(settled, work.id, DropUat))[i] == if Rows(b)[i] == work then Settled(work, f, true) else Rows(b)[i]
    {
      assert Rows(b)[i] in Rows(b);
    }
  }

  lemma {:induction false} MarkAppend(rows: seq<Row>, x: Row, id: Id, ch: Change)
    ensures Mark(rows + [x], id, ch) == Mark(rows, id, ch) + [if x.id == id then Changed(x, ch) else x]
  {
    if rows == [] {
      assert rows + [x] == [x] && [x][1..] == [];
    } else {
      assert (rows + [x])[1..] == rows[1..] + [x];
      MarkAppend(rows[1..], x, id, ch);
    }
  }

  /**
   A request-changes verdict settles the reviewed row, and adds exactly one round if and only if one is
   due; otherwise no row and no round is added, and the users' acceptance stands.
   */
  lemma BounceExactly(cfg: Config, b: Board, work: Row, f: BounceFacts)
    requires UniqueIds(b) && work in Rows(b) && (f.sent.Some? ==> f.sent.value.id !in Ids(Rows(b)))
    ensures var c := AfterBounce(cfg, b, work.id, f);
            && c.reviews == b.reviews && c.resets == b.resets
            && if RoundIsDue(cfg, b, work, f)
               then exists n :: NextRound(b, work, n) && OneMoreRound(cfg, b, c, work, f, n)
               else c.legs == b.legs && OnlyRow(b, c, work, Settled(work, f, false))
    ensures BounceOutcome(cfg, b, work.id, f).FixDispatched? <==> RoundIsDue(cfg, b, work, f)
  {
    FindIs(Rows(b), work);
    NextIterationIsNext(cfg, b, work);
    BounceUnfolds(cfg, b, work, f);
    if RoundIsDue(cfg, b, work, f) {
      RoundAdded(cfg, b, work, f, NextIteration(b, work));
    } else {
      MarkIsOnlyRow(b, work, TakeVerdict(f.verdict));
    }
  }

  /** The board after a verdict, when `work` is the row that is found. */
  lemma BounceUnfolds(cfg: Config, b: Board, work: Row, f: BounceFacts)
    requires Find(Rows(b), work.id) == Some(work)
    ensures AfterBounce(cfg, b, work.id, f) ==
            var n := NextIteration(b, work);
            if !f.terminal && !f.ceilingBlocked && !f.needsRedesign && f.sent.Some? && n <= cfg.maxIterations
            then WithRound(cfg, b, work, f, n) else MarkOn(b, work.id, TakeVerdict(f.verdict))
  {
  }

  function WithRound(cfg: Config, b: Board, work: Row, f: BounceFacts, n: nat): Board
    requires f.sent.Some?
  {
    var model := FixModel(cfg.models, n, f.bounce, LastModel(Rows(b), work.chain, n));
    MarkOn(AddRound(MarkOn(b, work.id, TakeVerdict(f.verdict)), work, n, model, f.bounce, Auto, f.sent.value), work.id, DropUat)
  }

  lemma RoundAdded(cfg: Config, b: Board, work: Row, f: BounceFacts, n: nat)
    requires UniqueIds(b) && work in Rows(b) && f.sent.Some? && f.sent.value.id !in Ids(Rows(b))
    ensures OneMoreRound(cfg, b, WithRound(cfg, b, work, f, n), work, f, n)
  {
    var settled := MarkOn(b, work.id, TakeVerdict(f.verdict));
    var model := FixModel(cfg.models, n, f.bounce, LastModel(Rows(b), work.chain, n));
    var c := WithRound(cfg, b, work, f, n);
    assert work.id in Ids(Rows(b));
    TwoMarks(b, work, f);
    MarkAppend(settled.active, FixRow(work, n, model, f.sent.value), work.id, DropUat);
    assert c.active[..|b.active|] == MarkOn(settled, work.id, DropUat).active;
    assert Rows(c.(active := c.active[..|b.active|])) == Rows(MarkOn(settled, work.id, DropUat));
  }
}
