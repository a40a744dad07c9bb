/**
 The review → fix → re-review cycle of `coord/auto_loop.py`.

 The board is two lists of rows; nothing but the rows remembers how often a branch was fixed.
 The methods of `Loop` scan and change the board; the events below interleave them with each
 other and with whatever else puts rows on the board.
 */
module AutoLoop {
  import opened Common
  import opened ModelLadder
  import Strings

  type Id = nat

  /** The rows that belong together: same repository, issue and branch. */
  datatype Chain = Chain(repo: string, issue: int, branch: Option<string>)

  datatype Row = Row(
    id: Id, chain: Chain, kind: string, iteration: nat, model: Option<string>, dispatchedAt: real,
    reviewState: Option<string>, verdict: Option<string>, uat: Option<string>, interactive: bool, tested: bool)

  datatype Config = Config(autoLoop: bool, maxIterations: int, testFirst: bool, models: Models)

  const WORK_LIKE: set<string> := {"work", "mock-author", "test-author", "epic-decompose"}
  const SEALED_AUTHORS: set<string> := {"test-author", "mock-author"}

  predicate OnChain(r: Row, c: Chain) {
    r.kind in WORK_LIKE && r.chain == c
  }

  // ── the counter, read off the board ────────────────────────────────────────

  function Highest(rows: seq<Row>, c: Chain, floor: nat): nat {
    if rows == [] then floor
    else
      var r := rows[0];
      Highest(rows[1..], c, if OnChain(r, c) && r.iteration > floor then r.iteration else floor)
  }

  /** The next iteration is the least number above the floor and above every iteration on the chain. */
  lemma {:induction false} NextIsLeast(rows: seq<Row>, c: Chain, floor: nat)
    ensures floor <= Highest(rows, c, floor)
    ensures forall r :: r in rows && OnChain(r, c) ==> r.iteration <= Highest(rows, c, floor)
    ensures Highest(rows, c, floor) == floor
         || exists r :: r in rows && OnChain(r, c) && r.iteration == Highest(rows, c, floor)
  {
    if rows != [] {
      var r := rows[0];
      var next := if OnChain(r, c) && r.iteration > floor then r.iteration else floor;
      NextIsLeast(rows[1..], c, next);
      assert forall q :: q in rows ==> q == r || q in rows[1..];
    }
  }

  // ── the last model, read off the board ─────────────────────────────────────

  function UsableModel(r: Row): Option<string> {
    if r.model == None || Strings.Strip(r.model.value) == "" then None else Some(Strings.Strip(r.model.value))
  }

  predicate Eligible(r: Row, c: Chain, before: nat) {
    OnChain(r, c) && 1 <= r.iteration < before && UsableModel(r).Some?
  }

  /** The best row so far: highest iteration first, then latest dispatch. */
  datatype Best = Best(iteration: nat, at: real, model: Option<string>)

  predicate NoWorse(iteration: nat, at: real, b: Best) {
    iteration > b.iteration || (iteration == b.iteration && at >= b.at)
  }

  function Consider(b: Best, r: Row, c: Chain, before: nat): Best {
    if Eligible(r, c, before) && NoWorse(r.iteration, r.dispatchedAt, b)
    then Best(r.iteration, r.dispatchedAt, UsableModel(r))
    else b
  }

  function BestOf(rows: seq<Row>, c: Chain, before: nat): Best {
    if rows == [] then Best(0, 0.0, None)
    else Consider(BestOf(rows[..|rows| - 1], c, before), rows[|rows| - 1], c, before)
  }

  /** `last_fix_model_for_branch` */
  function LastModel(rows: seq<Row>, c: Chain, before: nat): Option<string> {
    BestOf(rows, c, before).model
  }

  /** Row `i` is the latest eligible one; a tie goes to the row further down. */
  predicate Latest(rows: seq<Row>, c: Chain, before: nat, i: nat)
    requires i < |rows|
  {
    && Eligible(rows[i], c, before)
    && forall j :: 0 <= j < |rows| && Eligible(rows[j], c, before) ==>
         var r, q := rows[i], rows[j];
         r.iteration > q.iteration
         || (r.iteration == q.iteration && (r.dispatchedAt > q.dispatchedAt || (r.dispatchedAt == q.dispatchedAt && j <= i)))
  }

  /** The answer is the model of the latest fix round below `before`, or None if there is none. */
  lemma {:induction false} LastModelIsLatest(rows: seq<Row>, c: Chain, before: nat) returns (i: nat)
    ensures LastModel(rows, c, before) == None ==>
              forall j :: 0 <= j < |rows| ==> !Eligible(rows[j], c, before)
    ensures LastModel(rows, c, before).Some? ==>
              i < |rows| && Latest(rows, c, before, i) && UsableModel(rows[i]) == LastModel(rows, c, before)
              && BestOf(rows, c, before).iteration == rows[i].iteration && BestOf(rows, c, before).at == rows[i].dispatchedAt
    ensures LastModel(rows, c, before) == None ==> BestOf(rows, c, before) == Best(0, 0.0, None)
  {
    i := 0;
    if rows != [] {
      var n := |rows| - 1;
      i := LastModelIsLatest(rows[..n], c, before);
      assert forall j :: 0 <= j < n ==> rows[..n][j] == rows[j];
      if Eligible(rows[n], c, before) && NoWorse(rows[n].iteration, rows[n].dispatchedAt, BestOf(rows[..n], c, before)) {
        i := n;
      }
    }
  }

  // ── the board and its events ───────────────────────────────────────────────

  /**
   Which door dispatched a round: this loop, another door that asks the same ladder, or one that
   brings its own model or none.
   */
  datatype Door = Auto | Laddered | Pinned(model: Option<string>)

  /** A fix round that was recorded; `bounce` says that its failure was worth a bigger model. */
  datatype Leg = Leg(chain: Chain, iteration: nat, model: Option<string>, bounce: bool, door: Door)

  /** The board, and what has happened on it: rounds, reviews this loop asked for, and review states taken back. */
  datatype Board = Board(active: seq<Row>, completed: seq<Row>, legs: seq<Leg>, reviews: seq<Id>, resets: seq<Id>)

  function Rows(b: Board): seq<Row> {
    b.active + b.completed
  }

  function Find(rows: seq<Row>, id: Id): Option<Row> {
    if rows == [] then None else if rows[0].id == id then Some(rows[0]) else Find(rows[1..], id)
  }

  /** What happens to a single row. */
  datatype Change = SetReview(state: Option<string>) | TakeVerdict(verdict: Option<string>) | DropUat | SetTest(passed: bool)

  function Changed(r: Row, ch: Change): Row {
    match ch
    case SetReview(state) => r.(reviewState := state)
    case TakeVerdict(verdict) => r.(reviewState := Some("done"), verdict := verdict)
    case DropUat => r.(uat := None)
    case SetTest(passed) => r.(tested := passed)
  }

  function Mark(rows: seq<Row>, id: Id, ch: Change): (r: seq<Row>)
    ensures |r| == |rows|
  {
    if rows == [] then []
    else [if rows[0].id == id then Changed(rows[0], ch) else rows[0]] + Mark(rows[1..], id, ch)
  }

  function MarkOn(b: Board, id: Id, ch: Change): Board {
    b.(active := Mark(b.active, id, ch), completed := Mark(b.completed, id, ch))
  }

  /** A fix worker that was found, posted and recorded. */
  datatype Sent = Sent(id: Id, at: real)

  /** What the rest of the world says about one request-changes verdict. */
  datatype BounceFacts = BounceFacts(
    verdict: Option<string>, terminal: bool, ceilingBlocked: bool, needsRedesign: bool, bounce: bool, sent: Option<Sent>)

  /** What comes of asking for a review. */
  datatype Review = NoReview | Dispatched | DecidedAtOnce

  datatype FixFacts = FixFacts(terminal: bool, review: Review)

  datatype BounceResult = NoWork | TerminalSkip | Blocked | Redesign | CapReached | Declined | FixDispatched(iteration: nat)

  datatype FixResult = Disabled | NotFound | AlreadyDispatched | InteractiveSkip | FixTerminal | CapHit | GateHeld | NoCapacity | ReviewDispatched

  function FixKind(kind: string): string {
    if kind in SEALED_AUTHORS then kind else "work"
  }

  function NextIteration(b: Board, work: Row): nat {
    Highest(Rows(b), work.chain, work.iteration) + 1
  }

  function NextFixModel(cfg: Config, b: Board, work: Row, bounce: bool): Option<string> {
    var n := NextIteration(b, work);
    FixModel(cfg.models, n, bounce, LastModel(Rows(b), work.chain, n))
  }

  function BounceOutcome(cfg: Config, b: Board, work: Id, f: BounceFacts): BounceResult {
    var row := Find(Rows(b), work);
    if row == None then NoWork
    else if f.terminal then TerminalSkip
    else if f.ceilingBlocked then Blocked
    else if f.needsRedesign then Redesign
    else if NextIteration(b, row.value) > cfg.maxIterations then CapReached
    else if f.sent == None then Declined
    else FixDispatched(NextIteration(b, row.value))
  }

  function FixRow(work: Row, iteration: nat, model: Option<string>, sent: Sent): Row {
    Row(sent.id, work.chain, FixKind(work.kind), iteration, model, sent.at, None, None, None, false, false)
  }

  /** A new round for `work`: its row and its record. */
  function AddRound(b: Board, work: Row, iteration: nat, model: Option<string>, bounce: bool, door: Door, sent: Sent): Board {
    b.(active := b.active + [FixRow(work, iteration, model, sent)],
       legs := b.legs + [Leg(work.chain, iteration, model, bounce, door)])
  }

  /**
   `_dispatch_fix_for_review`: the verdict settles the reviewed row, and may add a fix row; then an
   acceptance of the old code by its users no longer counts.
   */
  function AfterBounce(cfg: Config, b: Board, work: Id, f: BounceFacts): Board {
    var row := Find(Rows(b), work);
    if row == None then b
    else
      var settled := MarkOn(b, work, TakeVerdict(f.verdict));
      var out := BounceOutcome(cfg, b, work, f);
      if out.FixDispatched? then
        MarkOn(AddRound(settled, row.value, out.iteration, NextFixModel(cfg, b, row.value, f.bounce), f.bounce, Auto, f.sent.value),
               work, DropUat)
      else settled
  }

  /** Another door: no cap holds it, and it takes the ladder's model unless it is pinned. */
  function AfterOtherDoor(cfg: Config, b: Board, work: Id, bounce: bool, door: Door, sent: Sent): Board {
    var row := Find(Rows(b), work);
    if row == None then b
    else
      AddRound(b, row.value, NextIteration(b, row.value),
               if door.Pinned? then door.model else NextFixModel(cfg, b, row.value, bounce), bounce, door, sent)
  }

  function FixOutcome(cfg: Config, b: Board, fix: Id, f: FixFacts): FixResult {
    var row := Find(Rows(b), fix);
    if !cfg.autoLoop then Disabled
    else if row == None then NotFound
    else if row.value.reviewState != None && row.value.reviewState != Some("pending") then AlreadyDispatched
    else if row.value.interactive then InteractiveSkip
    else if f.terminal then FixTerminal
    else if row.value.iteration >= cfg.maxIterations then CapHit
    else if cfg.testFirst && !row.value.tested then GateHeld
    else if f.review == NoReview then NoCapacity
    else ReviewDispatched
  }

  /** `run_for_fix_transition` */
  function AfterFix(cfg: Config, b: Board, fix: Id, f: FixFacts): Board {
    match FixOutcome(cfg, b, fix, f)
    case FixTerminal => MarkOn(b, fix, SetReview(Some("done")))
    case CapHit => MarkOn(b, fix, SetReview(Some("cap_hit")))
    case GateHeld => MarkOn(b, fix, SetReview(Some("pending")))
    case ReviewDispatched =>
      MarkOn(b, fix, SetReview(Some(if f.review == Dispatched then "dispatched" else "done"))).(reviews := b.reviews + [fix])
    case _ => b
  }

  datatype Event =
    | Bounce(work: Id, bounce: BounceFacts)
    | FixDone(fix: Id, facts: FixFacts)
    | Finish(index: nat)
    | Enter(row: Row)
    | Settle(id: Id, state: Option<string>)
    | Tested(id: Id, passed: bool)
    | OtherDoor(work: Id, worthIt: bool, door: Door, sent: Sent)

  function Ids(rows: seq<Row>): set<Id> {
    set r | r in rows :: r.id
  }

  predicate Unreviewed(state: Option<string>) {
    state == None || state == Some("pending")
  }

  predicate Reviewed(r: Row) {
    !Unreviewed(r.reviewState)
  }

  /** Somebody takes a review state back: the row counts as unreviewed again. */
  predicate TakesBack(b: Board, id: Id, state: Option<string>) {
    Unreviewed(state) && Find(Rows(b), id).Some? && Reviewed(Find(Rows(b), id).value)
  }

  /** New rows have new ids. */
  predicate Possible(b: Board, e: Event) {
    match e
    case Bounce(_, f) => f.sent.Some? ==> f.sent.value.id !in Ids(Rows(b))
    case FixDone(_, _) => true
    case Finish(index) => index < |b.active|
    case Enter(row) => row.id !in Ids(Rows(b))
    case Settle(_, _) => true
    case Tested(_, _) => true
    case OtherDoor(_, _, door, sent) => door != Auto && sent.id !in Ids(Rows(b))
  }

  function After(cfg: Config, b: Board, e: Event): Board
    requires Possible(b, e)
  {
    match e
    case Bounce(work, f) => AfterBounce(cfg, b, work, f)
    case FixDone(fix, f) => AfterFix(cfg, b, fix, f)
    case Finish(k) => b.(active := b.active[..k] + b.active[k + 1..], completed := b.completed + [b.active[k]])
    case Enter(row) => b.(active := b.active + [row])
    case Settle(id, state) =>
      MarkOn(b, id, SetReview(state)).(resets := b.resets + (if TakesBack(b, id, state) then [id] else []))
    case Tested(id, passed) => MarkOn(b, id, SetTest(passed))
    case OtherDoor(work, worthIt, door, sent) => AfterOtherDoor(cfg, b, work, worthIt, door, sent)
  }

  predicate Run(cfg: Config, b: Board, es: seq<Event>)
    decreases |es|
  {
    es == [] || (Possible(b, es[0]) && Run(cfg, After(cfg, b, es[0]), es[1..]))
  }

  function Final(cfg: Config, b: Board, es: seq<Event>): Board
    requires Run(cfg, b, es)
    decreases |es|
  {
    if es == [] then b else Final(cfg, After(cfg, b, es[0]), es[1..])
  }

  // ── what every event keeps ─────────────────────────────────────────────────

  /** Every recorded leg is still on the board, under its iteration. */
  ghost predicate LegsOnBoard(b: Board) {
    forall l :: l in b.legs ==> exists r :: r in Rows(b) && OnChain(r, l.chain) && r.iteration == l.iteration
  }

  predicate Climbing(legs: seq<Leg>) {
    forall i, j :: 0 <= i < j < |legs| && legs[i].chain == legs[j].chain ==> legs[i].iteration < legs[j].iteration
  }

  /** The rounds this loop dispatched, among all. */
  function Own(legs: seq<Leg>): seq<Leg> {
    if legs == [] then []
    else Own(legs[..|legs| - 1]) + (if legs[|legs| - 1].door == Auto then [legs[|legs| - 1]] else [])
  }

  predicate WithinCap(cfg: Config, legs: seq<Leg>) {
    forall l :: l in legs ==> 1 <= l.iteration && (l.door == Auto ==> l.iteration <= cfg.maxIterations)
  }

  function Times(ids: seq<Id>, id: Id): nat {
    multiset(ids)[id]
  }

  /** A row has had at most one review per time it was unreviewed, and none at the cap. */
  ghost predicate ReviewsBounded(cfg: Config, b: Board) {
    && (forall id :: id in b.reviews ==> id in Ids(Rows(b)))
    && (forall r :: r in Rows(b) ==>
          Times(b.reviews, r.id) <= Times(b.resets, r.id) + (if Reviewed(r) then 1 else 0))
    && (forall r :: r in Rows(b) && r.id in b.reviews ==> r.iteration < cfg.maxIterations)
  }

  predicate UniqueIds(b: Board) {
    forall r, q :: r in Rows(b) && q in Rows(b) && r.id == q.id ==> r == q
  }

  ghost predicate Inv(cfg: Config, b: Board) {
    UniqueIds(b) && LegsOnBoard(b) && Climbing(b.legs) && WithinCap(cfg, b.legs) && ReviewsBounded(cfg, b)
  }

  // ── rows under a change ────────────────────────────────────────────────────

  /** `q` is `r` with other states. */
  predicate SameRow(r: Row, q: Row) {
    q.id == r.id && q.chain == r.chain && q.kind == r.kind && q.iteration == r.iteration && q.model == r.model
    && q.dispatchedAt == r.dispatchedAt && q.interactive == r.interactive
  }

  lemma {:induction false} MarkMembers(rows: seq<Row>, id: Id, ch: Change)
    ensures forall i :: 0 <= i < |rows| ==>
      Mark(rows, id, ch)[i] == if rows[i].id == id then Changed(rows[i], ch) else rows[i]
  {
    if rows != [] {
      MarkMembers(rows[1..], id, ch);
    }
  }

  lemma {:induction false} FindFinds(rows: seq<Row>, id: Id)
    ensures Find(rows, id).Some? ==> Find(rows, id).value in rows && Find(rows, id).value.id == id
    ensures Find(rows, id) == None ==> id !in Ids(rows)
  {
    if rows != [] {
      FindFinds(rows[1..], id);
      assert forall q :: q in rows ==> q == rows[0] || q in rows[1..];
    }
  }

  /** The rows of `c` are those of `b`, up to their states. */
  predicate SameRows(b: Board, c: Board) {
    |Rows(c)| == |Rows(b)| && forall i :: 0 <= i < |Rows(b)| ==> SameRow(Rows(b)[i], Rows(c)[i])
  }

  function Marked(r: Row, id: Id, ch: Change): Row {
    if r.id == id then Changed(r, ch) else r
  }

  lemma MarkedRows(b: Board, id: Id, ch: Change)
    ensures |Rows(MarkOn(b, id, ch))| == |Rows(b)|
    ensures forall i :: 0 <= i < |Rows(b)| ==> Rows(MarkOn(b, id, ch))[i] == Marked(Rows(b)[i], id, ch)
  {
    MarkMembers(b.active, id, ch);
    MarkMembers(b.completed, id, ch);
  }

  /** Where a row of the changed board comes from. */
  lemma MarkedFrom(b: Board, id: Id, ch: Change, q: Row) returns (r: Row)
    requires q in Rows(MarkOn(b, id, ch))
    ensures r in Rows(b) && q == Marked(r, id, ch) && SameRow(r, q)
  {
    MarkedRows(b, id, ch);
    var i :| 0 <= i < |Rows(MarkOn(b, id, ch))| && Rows(MarkOn(b, id, ch))[i] == q;
    r := Rows(b)[i];
  }

  lemma MarkKeepsRows(b: Board, id: Id, ch: Change)
    requires UniqueIds(b)
    ensures SameRows(b, MarkOn(b, id, ch)) && UniqueIds(MarkOn(b, id, ch))
  {
    MarkedRows(b, id, ch);
    var c := MarkOn(b, id, ch);
    forall q, q' | q in Rows(c) && q' in Rows(c) && q.id == q'.id ensures q == q' {
      var r := MarkedFrom(b, id, ch, q);
      var r' := MarkedFrom(b, id, ch, q');
    }
  }

  lemma SameRowsKeepLegs(b: Board, c: Board)
    requires LegsOnBoard(b) && SameRows(b, c) && c.legs == b.legs
    ensures LegsOnBoard(c)
  {
    forall l | l in c.legs ensures exists r :: r in Rows(c) && OnChain(r, l.chain) && r.iteration == l.iteration {
      var i :| 0 <= i < |Rows(b)| && OnChain(Rows(b)[i], l.chain) && Rows(b)[i].iteration == l.iteration;
      assert Rows(c)[i] in Rows(c);
    }
  }

  lemma SameRowsKeepIds(b: Board, c: Board)
    requires SameRows(b, c)
    ensures Ids(Rows(c)) == Ids(Rows(b))
  {
    forall id ensures id in Ids(Rows(c)) <==> id in Ids(Rows(b)) {
      if id in Ids(Rows(b)) {
        var i :| 0 <= i < |Rows(b)| && Rows(b)[i].id == id;
        assert Rows(c)[i] in Rows(c);
      }
      if id in Ids(Rows(c)) {
        var i :| 0 <= i < |Rows(c)| && Rows(c)[i].id == id;
        assert Rows(b)[i] in Rows(b);
      }
    }
  }

  /** A change of one row, with a reset on record if it takes a review back. */
  lemma MarkKeepsInv(cfg: Config, b: Board, id: Id, ch: Change, resets: seq<Id>)
    requires Inv(cfg, b)
    requires resets == b.resets || resets == b.resets + [id]
    requires forall r :: r in Rows(b) && r.id == id && Reviewed(r) && !Reviewed(Changed(r, ch)) ==> resets == b.resets + [id]
    ensures Inv(cfg, MarkOn(b, id, ch).(resets := resets))
  {
    MarkKeepsRows(b, id, ch);
    var c := MarkOn(b, id, ch).(resets := resets);
    SameRowsKeepLegs(b, c);
    SameRowsKeepIds(b, c);
    forall q | q in Rows(c)
      ensures Times(c.reviews, q.id) <= Times(c.resets, q.id) + (if Reviewed(q) then 1 else 0)
      ensures q.id in c.reviews ==> q.iteration < cfg.maxIterations
    {
      var r := MarkedFrom(b, id, ch, q);
    }
  }

  lemma PlainMarkKeepsInv(cfg: Config, b: Board, id: Id, ch: Change)
    requires Inv(cfg, b)
    requires forall r :: r in Rows(b) && r.id == id && Reviewed(r) ==> Reviewed(Changed(r, ch))
    ensures Inv(cfg, MarkOn(b, id, ch))
  {
    MarkKeepsInv(cfg, b, id, ch, b.resets);
    assert MarkOn(b, id, ch).(resets := b.resets) == MarkOn(b, id, ch);
  }

  /** A new row with a new id disturbs nothing. */
  lemma EnterKeepsInv(cfg: Config, b: Board, row: Row)
    requires Inv(cfg, b) && row.id !in Ids(Rows(b))
    ensures Inv(cfg, b.(active := b.active + [row]))
  {
    var c := b.(active := b.active + [row]);
    assert forall r :: r in Rows(c) <==> r in Rows(b) || r == row;
    assert forall r :: r in Rows(b) ==> r.id in Ids(Rows(b));
  }

  lemma FinishKeepsInv(cfg: Config, b: Board, k: nat)
    requires Inv(cfg, b) && k < |b.active|
    ensures Inv(cfg, After(cfg, b, Finish(k)))
  {
    var c := After(cfg, b, Finish(k));
    assert b.active == b.active[..k] + [b.active[k]] + b.active[k + 1..];
    assert forall r :: r in Rows(c) <==> r in Rows(b);
    assert Ids(Rows(c)) == Ids(Rows(b));
  }

  /** A recorded leg is above every leg before it on its chain. */
  lemma LegKeepsInv(cfg: Config, b: Board, row: Row, leg: Leg)
    requires Inv(cfg, b) && row in Rows(b) && OnChain(row, leg.chain) && row.iteration == leg.iteration
    requires 1 <= leg.iteration && (leg.door == Auto ==> leg.iteration <= cfg.maxIterations)
    requires forall l :: l in b.legs && l.chain == leg.chain ==> l.iteration < leg.iteration
    ensures Inv(cfg, b.(legs := b.legs + [leg]))
  {
  }

  lemma NewLegIsAbove(b: Board, work: Row)
    requires LegsOnBoard(b)
    ensures forall l :: l in b.legs && l.chain == work.chain ==> l.iteration < NextIteration(b, work)
  {
    NextIsLeast(Rows(b), work.chain, work.iteration);
  }

  lemma RoundKeepsInv(cfg: Config, b: Board, work: Row, n: nat, model: Option<string>, bounce: bool, door: Door, sent: Sent)
    requires Inv(cfg, b) && sent.id !in Ids(Rows(b))
    requires 1 <= n && (door == Auto ==> n <= cfg.maxIterations)
    requires forall l :: l in b.legs && l.chain == work.chain ==> l.iteration < n
    ensures Inv(cfg, AddRound(b, work, n, model, bounce, door, sent))
  {
    var fix := FixRow(work, n, model, sent);
    EnterKeepsInv(cfg, b, fix);
    var entered := b.(active := b.active + [fix]);
    assert fix in Rows(entered) by {
      assert entered.active[|b.active|] == fix;
    }
    LegKeepsInv(cfg, entered, fix, Leg(work.chain, n, model, bounce, door));
  }

  lemma BounceKeepsInv(cfg: Config, b: Board, work: Id, f: BounceFacts)
    requires Inv(cfg, b) && Possible(b, Bounce(work, f))
    ensures Inv(cfg, AfterBounce(cfg, b, work, f))
  {
    var row := Find(Rows(b), work);
    if row.Some? {
      FindFinds(Rows(b), work);
      var settled := MarkOn(b, work, TakeVerdict(f.verdict));
      PlainMarkKeepsInv(cfg, b, work, TakeVerdict(f.verdict));
      MarkKeepsRows(b, work, TakeVerdict(f.verdict));
      SameRowsKeepIds(b, settled);
      var out := BounceOutcome(cfg, b, work, f);
      if out.FixDispatched? {
        NewLegIsAbove(b, row.value);
        OwnRoundKeepsInv(cfg, settled, row.value, out.iteration, NextFixModel(cfg, b, row.value, f.bounce), f);
      }
    }
  }

  lemma OwnRoundKeepsInv(cfg: Config, b: Board, work: Row, n: nat, model: Option<string>, f: BounceFacts)
    requires Inv(cfg, b) && f.sent.Some? && f.sent.value.id !in Ids(Rows(b)) && 1 <= n <= cfg.maxIterations
    requires forall l :: l in b.legs && l.chain == work.chain ==> l.iteration < n
    ensures Inv(cfg, MarkOn(AddRound(b, work, n, model, f.bounce, Auto, f.sent.value), work.id, DropUat))
  {
    RoundKeepsInv(cfg, b, work, n, model, f.bounce, Auto, f.sent.value);
    PlainMarkKeepsInv(cfg, AddRound(b, work, n, model, f.bounce, Auto, f.sent.value), work.id, DropUat);
  }

  lemma OtherDoorKeepsInv(cfg: Config, b: Board, work: Id, bounce: bool, door: Door, sent: Sent)
    requires Inv(cfg, b) && door != Auto && sent.id !in Ids(Rows(b))
    ensures Inv(cfg, AfterOtherDoor(cfg, b, work, bounce, door, sent))
  {
    var row := Find(Rows(b), work);
    if row.Some? {
      NewLegIsAbove(b, row.value);
      RoundKeepsInv(cfg, b, row.value, NextIteration(b, row.value),
                    if door.Pinned? then door.model else NextFixModel(cfg, b, row.value, bounce), bounce, door, sent);
    }
  }

  lemma FixKeepsInv(cfg: Config, b: Board, fix: Id, f: FixFacts)
    requires Inv(cfg, b)
    ensures Inv(cfg, AfterFix(cfg, b, fix, f))
  {
    var row := Find(Rows(b), fix);
    FindFinds(Rows(b), fix);
    match FixOutcome(cfg, b, fix, f)
    case FixTerminal => PlainMarkKeepsInv(cfg, b, fix, SetReview(Some("done")));
    case CapHit => PlainMarkKeepsInv(cfg, b, fix, SetReview(Some("cap_hit")));
    case GateHeld => PlainMarkKeepsInv(cfg, b, fix, SetReview(Some("pending")));
    case ReviewDispatched => ReviewKeepsInv(cfg, b, row.value, if f.review == Dispatched then "dispatched" else "done");
    case _ =>
  }

  lemma ReviewKeepsInv(cfg: Config, b: Board, fix: Row, state: string)
    requires Inv(cfg, b) && fix in Rows(b) && !Reviewed(fix) && fix.iteration < cfg.maxIterations && state != "pending"
    ensures Inv(cfg, MarkOn(b, fix.id, SetReview(Some(state))).(reviews := b.reviews + [fix.id]))
  {
    var ch := SetReview(Some(state));
    MarkKeepsRows(b, fix.id, ch);
    var c := MarkOn(b, fix.id, ch).(reviews := b.reviews + [fix.id]);
    SameRowsKeepLegs(b, c);
    SameRowsKeepIds(b, c);
    forall q | q in Rows(c)
      ensures Times(c.reviews, q.id) <= Times(c.resets, q.id) + (if Reviewed(q) then 1 else 0)
      ensures q.id in c.reviews ==> q.iteration < cfg.maxIterations
    {
      var r := MarkedFrom(b, fix.id, ch, q);
      assert r.id == fix.id ==> r == fix;
    }
  }

  lemma SettleKeepsInv(cfg: Config, b: Board, id: Id, state: Option<string>)
    requires Inv(cfg, b)
    ensures Inv(cfg, After(cfg, b, Settle(id, state)))
  {
    FindFinds(Rows(b), id);
    assert b.resets + [] == b.resets;
    MarkKeepsInv(cfg, b, id, SetReview(state), b.resets + (if TakesBack(b, id, state) then [id] else []));
  }

  lemma EventKeepsInv(cfg: Config, b: Board, e: Event)
    requires Inv(cfg, b) && Possible(b, e)
    ensures Inv(cfg, After(cfg, b, e))
  {
    match e
    case Bounce(work, f) => BounceKeepsInv(cfg, b, work, f);
    case FixDone(fix, f) => FixKeepsInv(cfg, b, fix, f);
    case Finish(k) => FinishKeepsInv(cfg, b, k);
    case Enter(row) => EnterKeepsInv(cfg, b, row);
    case Settle(id, state) => SettleKeepsInv(cfg, b, id, state);
    case Tested(id, passed) => PlainMarkKeepsInv(cfg, b, id, SetTest(passed));
    case OtherDoor(work, worthIt, door, sent) => OtherDoorKeepsInv(cfg, b, work, worthIt, door, sent);
  }

  lemma {:induction false} EveryRunKeepsInv(cfg: Config, b: Board, es: seq<Event>)
    requires Inv(cfg, b) && Run(cfg, b, es)
    ensures Inv(cfg, Final(cfg, b, es))
    decreases |es|
  {
    if es != [] {
      EventKeepsInv(cfg, b, es[0]);
      EveryRunKeepsInv(cfg, After(cfg, b, es[0]), es[1..]);
    }
  }

  // ── the cycle ends ─────────────────────────────────────────────────────────

  function LegsOf(legs: seq<Leg>, c: Chain): seq<Leg> {
    if legs == [] then []
    else LegsOf(legs[..|legs| - 1], c) + (if legs[|legs| - 1].chain == c then [legs[|legs| - 1]] else [])
  }

  lemma {:induction false} ClimbersAreFew(legs: seq<Leg>, c: Chain, top: nat)
    requires Climbing(legs) && forall l :: l in legs && l.chain == c ==> 1 <= l.iteration <= top
    ensures |LegsOf(legs, c)| <= top
    decreases |legs|
  {
    if legs != [] {
      var last, before := legs[|legs| - 1], legs[..|legs| - 1];
      ClimbersAreFew(before, c, if last.chain == c then last.iteration - 1 else top);
    }
  }

  lemma {:induction false} OwnClimb(legs: seq<Leg>)
    requires Climbing(legs)
    ensures Climbing(Own(legs)) && forall l :: l in Own(legs) ==> l in legs && l.door == Auto
  {
    if legs != [] {
      OwnClimb(legs[..|legs| - 1]);
    }
  }

  predicate Fresh(b: Board) {
    UniqueIds(b) && b.legs == [] && b.reviews == [] && b.resets == []
  }

  /**
   Whatever else happens on the board, other doors included, and whichever row of a chain a verdict
   points at: the fix rounds recorded on one chain climb strictly; at most `maxIterations` of them
   are this loop's; each row gets at most one review from this path, plus one for every time somebody
   took its review state back; and none at the cap.
   */
  lemma CycleTerminates(cfg: Config, b: Board, es: seq<Event>, c: Chain)
    requires Fresh(b) && Run(cfg, b, es)
    ensures var t := Final(cfg, b, es);
            && Climbing(t.legs)
            && |LegsOf(Own(t.legs), c)| <= (if cfg.maxIterations < 0 then 0 else cfg.maxIterations)
            && (forall id :: Times(t.reviews, id) <= Times(t.resets, id) + 1)
            && (forall r :: r in Rows(t) && r.id in t.reviews ==> r.iteration < cfg.maxIterations)
  {
    EveryRunKeepsInv(cfg, b, es);
    var t := Final(cfg, b, es);
    OwnClimb(t.legs);
    ClimbersAreFew(Own(t.legs), c, if cfg.maxIterations < 0 then 0 else cfg.maxIterations);
    forall id ensures Times(t.reviews, id) <= Times(t.resets, id) + 1 {
      if id in t.reviews {
        var r :| r in Rows(t) && r.id == id;
      }
    }
  }

  // ── the loop as it runs ────────────────────────────────────────────────────

  class Loop {
    const cfg: Config
    var active: seq<Row>
    var completed: seq<Row>
    ghost var legs: seq<Leg>
    ghost var reviews: seq<Id>
    ghost var resets: seq<Id>

    ghost function Now(): Board
      reads this
    {
      Board(active, completed, legs, reviews, resets)
    }

    constructor (cfg: Config, active: seq<Row>, completed: seq<Row>)
      ensures this.cfg == cfg && Now() == Board(active, completed, [], [], [])
    {
      this.cfg, this.active, this.completed := cfg, active, completed;
      legs, reviews, resets := [], [], [];
    }

    /** `next_fix_iteration_for_branch` */
    method NextFixIterationForBranch(c: Chain, floor: nat) returns (n: nat)
      ensures n == Highest(Rows(Now()), c, floor) + 1
    {
      var rows := active + completed;
      var highest: nat := floor;
      for k := 0 to |rows|
        invariant Highest(rows, c, floor) == Highest(rows[k..], c, highest)
      {
        assert rows[k..][1..] == rows[k + 1..];
        if rows[k].kind !in WORK_LIKE {
          continue;
        }
        if rows[k].chain != c {
          continue;
        }
        highest := if rows[k].iteration > highest then rows[k].iteration else highest;
      }
      n := highest + 1;
    }

    /** `last_fix_model_for_branch` */
    method LastFixModelForBranch(c: Chain, before: nat) returns (model: Option<string>)
      ensures model == LastModel(Rows(Now()), c, before)
    {
      var rows := active + completed;
      var bestIteration: nat, bestAt: real := 0, 0.0;
      model := None;
      for k := 0 to |rows|
        invariant Best(bestIteration, bestAt, model) == BestOf(rows[..k], c, before)
      {
        assert rows[..k + 1][..k] == rows[..k];
        if rows[k].kind !in WORK_LIKE || rows[k].chain != c {
          continue;
        }
        if rows[k].iteration < 1 || rows[k].iteration >= before {
          continue;
        }
        var name := if rows[k].model.Some? then Strings.Strip(rows[k].model.value) else "";
        if name == "" {
          continue;
        }
        if rows[k].iteration > bestIteration || (rows[k].iteration == bestIteration && rows[k].dispatchedAt >= bestAt) {
          bestIteration, bestAt, model := rows[k].iteration, rows[k].dispatchedAt, Some(name);
        }
      }
      assert rows[..|rows|] == rows;
    }

    /** `board.find_by_id`: the active rows first. */
    method FindById(id: Id) returns (row: Option<Row>)
      ensures row == Find(Rows(Now()), id)
    {
      var rows := active + completed;
      for k := 0 to |rows|
        invariant Find(rows, id) == Find(rows[k..], id)
      {
        assert rows[k..][1..] == rows[k + 1..];
        if rows[k].id == id {
          return Some(rows[k]);
        }
      }
      return None;
    }

    method Update(id: Id, ch: Change)
      modifies this
      ensures Now() == MarkOn(old(Now()), id, ch)
    {
      active, completed := Mark(active, id, ch), Mark(completed, id, ch);
    }

    /** `_dispatch_fix_for_review` */
    method DispatchFixForReview(work: Id, f: BounceFacts) returns (r: BounceResult)
      modifies this
      ensures Now() == AfterBounce(cfg, old(Now()), work, f)
      ensures r == BounceOutcome(cfg, old(Now()), work, f)
    {
      var row := FindById(work);
      if row == None {
        return NoWork;
      }
      if f.terminal || f.ceilingBlocked || f.needsRedesign {
        Update(work, TakeVerdict(f.verdict));
        return if f.terminal then TerminalSkip else if f.ceilingBlocked then Blocked else Redesign;
      }
      var next := NextFixIterationForBranch(row.value.chain, row.value.iteration);
      if next > cfg.maxIterations {
        Update(work, TakeVerdict(f.verdict));
        return CapReached;
      }
      var previous := LastFixModelForBranch(row.value.chain, next);
      var model := FixModelForIteration(cfg.models, next, Some(f.bounce), previous);
      Update(work, TakeVerdict(f.verdict));
      if f.sent == None {
        return Declined;
      }
      active := active + [FixRow(row.value, next, model, f.sent.value)];
      legs := legs + [Leg(row.value.chain, next, model, f.bounce, Auto)];
      Update(work, DropUat);
      return FixDispatched(next);
    }

    /** `run_for_fix_transition` */
    method RunForFixTransition(fix: Id, f: FixFacts) returns (r: FixResult)
      modifies this
      ensures Now() == AfterFix(cfg, old(Now()), fix, f)
      ensures r == FixOutcome(cfg, old(Now()), fix, f)
    {
      if !cfg.autoLoop {
        return Disabled;
      }
      var row := FindById(fix);
      if row == None {
        return NotFound;
      }
      if row.value.reviewState.Some? && row.value.reviewState.value != "pending" {
        return AlreadyDispatched;
      }
      if row.value.interactive {
        return InteractiveSkip;
      }
      if f.terminal {
        Update(fix, SetReview(Some("done")));
        return FixTerminal;
      }
      if row.value.iteration >= cfg.maxIterations {
        Update(fix, SetReview(Some("cap_hit")));
        return CapHit;
      }
      if cfg.testFirst && !row.value.tested {
        Update(fix, SetReview(Some("pending")));
        return GateHeld;
      }
      if f.review == NoReview {
        return NoCapacity;
      }
      Update(fix, SetReview(Some(if f.review == Dispatched then "dispatched" else "done")));
      reviews := reviews + [fix];
      return ReviewDispatched;
    }
  }
}
