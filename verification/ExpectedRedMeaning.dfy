/**
 What clearing does to the registry a manifest declares.

 `ReadRegistry` reads the `expected_red:` block of a block-style manifest on its own terms; it
 shares nothing with the editor but the classified lines.  Here are the layout, the pieces a body
 falls into around one issue, and what an edit makes of each; module ExpectedRedClear puts them
 together.
 */
module ExpectedRedMeaning {
  import opened Common
  import opened ExpectedRed

  // ── the reader ─────────────────────────────────────────────────────────────

  datatype Entry = Entry(issue: int, ids: set<string>)

  /** Issues in order of appearance; an issue without ids is not part of the registry. */
  type Registry = seq<Entry>

  /** `loose` once an item has stood in front of every header: then the block is a plain list. */
  datatype Reader = Reader(done: Registry, current: Option<Entry>, loose: bool, ok: bool)

  const START := Reader([], None, false, true)

  function Flush(c: Option<Entry>): Registry {
    if c.Some? && c.value.ids != {} then [c.value] else []
  }

  /**
   Blank lines and comments mean nothing; an item belongs to the header above it.  A list with headers
   behind it cannot be read; a list alone is no mapping and declares nothing.
   */
  function ReadLine(r: Reader, l: Line): Reader {
    match l.kind
    case Blank => r
    case Comment => r
    case Header(n) => Reader(r.done + Flush(r.current), Some(Entry(n, {})), r.loose, r.ok && !r.loose)
    case Item(id) =>
      if r.current.Some? then r.(current := Some(Entry(r.current.value.issue, r.current.value.ids + {id})))
      else r.(loose := true)
    case RegistryKey => r.(ok := false)
    case OtherContent => r.(ok := false)
  }

  function ReadLines(r: Reader, ls: seq<Line>): Reader
    decreases |ls|
  {
    if ls == [] then r else ReadLines(ReadLine(r, ls[0]), ls[1..])
  }

  function Finish(r: Reader): Option<Registry> {
    if r.ok then Some(r.done + Flush(r.current)) else None
  }

  function ReadBlock(ls: seq<Line>): Option<Registry> {
    Finish(ReadLines(START, ls))
  }

  /** A block ends at the next content line in column 0; comments do not end it. */
  function BlockLength(ls: seq<Line>): (n: nat)
    ensures n <= |ls|
  {
    if ls == [] || (IsContent(ls[0]) && ls[0].indent == 0) then 0 else 1 + BlockLength(ls[1..])
  }

  function ReadRegistry(text: seq<Line>): Option<Registry> {
    if text == [] then Some([])
    else if text[0].kind == RegistryKey && text[0].indent == 0 then ReadBlock(text[1..][..BlockLength(text[1..])])
    else ReadRegistry(text[1..])
  }

  // ── what clearing promises ─────────────────────────────────────────────────

  /** The registry without `ids` under `issue`; an issue left empty is dropped. */
  function RemoveIds(reg: Registry, issue: int, ids: set<string>): Registry {
    if reg == [] then []
    else (if reg[0].issue == issue then Flush(Some(Entry(issue, reg[0].ids - ids))) else [reg[0]])
         + RemoveIds(reg[1..], issue, ids)
  }

  // ── the layout ─────────────────────────────────────────────────────────────

  datatype Manifest = Manifest(before: seq<Line>, key: Line, body: seq<Line>, after: seq<Line>)

  function Text(m: Manifest): seq<Line> {
    m.before + ([m.key] + m.body + m.after)
  }

  predicate NoKey(ls: seq<Line>) {
    forall i :: 0 <= i < |ls| ==> ls[i].kind != RegistryKey
  }

  predicate NoHeaderOf(ls: seq<Line>, issue: int) {
    forall i :: 0 <= i < |ls| ==> ls[i].kind != Header(issue)
  }

  predicate StartsWithHeader(ls: seq<Line>) {
    ls == [] || ls[0].kind.Header? || (!IsContent(ls[0]) && StartsWithHeader(ls[1..]))
  }

  /** Headers stand in one column, items deeper, and white space is spaces. */
  predicate InColumns(body: seq<Line>, column: nat) {
    forall i :: 0 <= i < |body| && IsContent(body[i]) ==>
      if body[i].kind.Header? then body[i].indent == body[i].margin == column
      else body[i].kind.Item? && body[i].indent == body[i].margin > column
  }

  /** All items stand in one column; in another one YAML would take an item for more of the one above. */
  predicate OneItemColumn(body: seq<Line>) {
    forall i, j :: 0 <= i < j < |body| && body[i].kind.Item? && body[j].kind.Item? ==> body[i].indent == body[j].indent
  }

  predicate NoRepeats(body: seq<Line>) {
    forall i, j :: 0 <= i < j < |body| && body[i].kind.Header? ==> body[i].kind != body[j].kind
  }

  predicate BlockStyle(body: seq<Line>, column: nat) {
    column > 0 && StartsWithHeader(body) && InColumns(body, column) && OneItemColumn(body) && NoRepeats(body)
  }

  /** One key in column 0, a block-style body without column-0 comments, and a clean end. */
  predicate Layout(m: Manifest, column: nat) {
    && m.key.kind == RegistryKey && m.key.indent == 0
    && NoKey(m.before) && NoKey(m.after)
    && BlockStyle(m.body, column)
    && (forall i :: 0 <= i < |m.body| ==> !Ends(m.body[i], 0))
    && Fenced(m.after, 0)
    && !AnyContent(m.after[..BlockLength(m.after)])
  }

  // ── where the items of one issue stand ─────────────────────────────────────

  function FindHeader(body: seq<Line>, issue: int): (p: nat)
    ensures p <= |body|
  {
    if body == [] || body[0].kind == Header(issue) then 0 else 1 + FindHeader(body[1..], issue)
  }

  function UntilHeader(ls: seq<Line>): (n: nat)
    ensures n <= |ls|
  {
    if ls == [] || ls[0].kind.Header? then 0 else 1 + UntilHeader(ls[1..])
  }

  function ItemIds(ls: seq<Line>): set<string> {
    if ls == [] then {} else (if ls[0].kind.Item? then {ls[0].kind.id} else {}) + ItemIds(ls[1..])
  }

  /** A body around one issue: its header, the lines that hang below it, and those cut off by a comment. */
  datatype Cut = Cut(ahead: seq<Line>, header: Line, deep: seq<Line>, hidden: seq<Line>, next: seq<Line>)

  function CutBody(body: seq<Line>, p: nat, n: nat, u: nat): Cut
    requires p + 1 + n + u <= |body|
  {
    var rest := body[p + 1..];
    Cut(body[..p], body[p], rest[..n], rest[n..][..u], rest[n..][u..])
  }

  function CutAt(body: seq<Line>, issue: int): Cut
    requires FindHeader(body, issue) < |body|
  {
    var p := FindHeader(body, issue);
    var n := DeepCount(body[p + 1..], body[p].margin);
    CutBody(body, p, n, UntilHeader(body[p + 1..][n..]))
  }

  function IdsOf(c: Option<Entry>): set<string> {
    if c.Some? then c.value.ids else {}
  }

  /**
   When items `behind` a comment do no harm; `front` are the ones ahead of it, `above` those of the
   issue before, and `alone` says that the block has no other issue.
   */
  predicate Harmless(front: set<string>, behind: set<string>, above: set<string>, alone: bool, ids: set<string>) {
    if front - ids != {} then behind !! ids
    else behind == {} || (behind <= ids && (behind <= above || alone))
  }

  /** The body has no issue but the one it is cut at. */
  predicate Alone(c: Cut) {
    ReadLines(START, c.ahead).current == None && c.next == []
  }

  /** The condition on a body: are items of the issue hidden behind a comment at or left of its header? */
  predicate CommentSafe(body: seq<Line>, issue: int, ids: set<string>) {
    FindHeader(body, issue) < |body| ==>
      var c := CutAt(body, issue);
      Harmless(ItemIds(c.deep), ItemIds(c.hidden), IdsOf(ReadLines(START, c.ahead).current), Alone(c), ids)
  }

  // ── reading in pieces ──────────────────────────────────────────────────────

  lemma {:induction false} ReadLinesConcat(r: Reader, a: seq<Line>, b: seq<Line>)
    ensures ReadLines(r, a + b) == ReadLines(ReadLines(r, a), b)
    decreases |a|
  {
    if a == [] {
      assert a + b == b;
    } else {
      assert (a + b)[1..] == a[1..] + b;
      ReadLinesConcat(ReadLine(r, a[0]), a[1..], b);
    }
  }

  /** What was read earlier is only ever a prefix. */
  lemma {:induction false} ReadLinesPrefix(done: Registry, c: Option<Entry>, loose: bool, ok: bool, ls: seq<Line>)
    ensures var q := ReadLines(Reader([], c, loose, true), ls);
            ReadLines(Reader(done, c, loose, ok), ls) == Reader(done + q.done, q.current, q.loose, ok && q.ok)
    decreases |ls|
  {
    if ls == [] {
      assert done + [] == done;
    } else {
      var s := ReadLine(Reader([], c, loose, true), ls[0]);
      ReadLinePrefix(done, c, loose, ok, ls[0]);
      ReadLinesPrefix(s.done, s.current, s.loose, s.ok, ls[1..]);
      ReadLinesPrefix(done + s.done, s.current, s.loose, ok && s.ok, ls[1..]);
      var q := ReadLines(Reader([], s.current, s.loose, true), ls[1..]);
      assert (done + s.done) + q.done == done + (s.done + q.done);
    }
  }

  lemma ReadLinePrefix(done: Registry, c: Option<Entry>, loose: bool, ok: bool, l: Line)
    ensures var s := ReadLine(Reader([], c, loose, true), l);
            ReadLine(Reader(done, c, loose, ok), l) == Reader(done + s.done, s.current, s.loose, ok && s.ok)
  {
    assert [] + Flush(c) == Flush(c) && done + [] == done;
  }

  /** A header closes whatever was being read. */
  lemma HeaderCloses(done: Registry, c: Option<Entry>, next: seq<Line>, reg: Registry)
    requires next == [] || next[0].kind.Header?
    requires ReadBlock(next) == Some(reg)
    ensures Finish(ReadLines(Reader(done, c, false, true), next)) == Some(done + Flush(c) + reg)
  {
    if next == [] {
      assert done + Flush(c) + [] == done + Flush(c);
    } else {
      var e := Some(Entry(next[0].kind.issue, {}));
      ReadLinesPrefix(done + Flush(c), e, false, true, next[1..]);
      assert [] + Flush(None) == [];
      var q := ReadLines(Reader([], e, false, true), next[1..]);
      assert (done + Flush(c) + q.done) + Flush(q.current) == done + Flush(c) + (q.done + Flush(q.current));
    }
  }

  predicate ItemsOnly(ls: seq<Line>) {
    forall i :: 0 <= i < |ls| && IsContent(ls[i]) ==> ls[i].kind.Item?
  }

  lemma {:induction false} ReadItems(done: Registry, c: Option<Entry>, loose: bool, ok: bool, ls: seq<Line>)
    requires ItemsOnly(ls)
    ensures ReadLines(Reader(done, c, loose, ok), ls) ==
            if c.Some? then Reader(done, Some(Entry(c.value.issue, c.value.ids + ItemIds(ls))), loose, ok)
            else Reader(done, c, loose || ItemIds(ls) != {}, ok)
    decreases |ls|
  {
    if ls == [] {
      assert c.Some? ==> c.value.ids + {} == c.value.ids;
    } else {
      var s := ReadLine(Reader(done, c, loose, ok), ls[0]);
      ReadItems(s.done, s.current, s.loose, s.ok, ls[1..]);
      assert {} + ItemIds(ls[1..]) == ItemIds(ls[1..]);
      if ls[0].kind.Item? {
        assert ls[0].kind.id in ItemIds(ls);
        assert c.Some? ==> (c.value.ids + {ls[0].kind.id}) + ItemIds(ls[1..]) == c.value.ids + ItemIds(ls);
      }
    }
  }

  predicate HeadersAndItems(ls: seq<Line>) {
    forall i :: 0 <= i < |ls| && IsContent(ls[i]) ==> ls[i].kind.Header? || ls[i].kind.Item?
  }

  lemma {:induction false} ReadsWell(r: Reader, ls: seq<Line>)
    requires HeadersAndItems(ls) && r.ok && !r.loose && (r.current.Some? || StartsWithHeader(ls))
    ensures ReadLines(r, ls).ok && !ReadLines(r, ls).loose
    decreases |ls|
  {
    if ls != [] {
      ReadsWell(ReadLine(r, ls[0]), ls[1..]);
    }
  }

  lemma {:induction false} StartOfStart(a: seq<Line>, b: seq<Line>)
    requires StartsWithHeader(a + b)
    ensures StartsWithHeader(a)
  {
    if a != [] {
      assert (a + b)[1..] == a[1..] + b;
      if !IsContent(a[0]) {
        StartOfStart(a[1..], b);
      }
    }
  }

  predicate Without(reg: Registry, issue: int) {
    forall e :: e in reg ==> e.issue != issue
  }

  predicate Lacks(r: Reader, issue: int) {
    Without(r.done, issue) && (r.current.Some? ==> r.current.value.issue != issue)
  }

  lemma {:induction false} IssuesComeFromHeaders(r: Reader, ls: seq<Line>, issue: int)
    requires NoHeaderOf(ls, issue) && Lacks(r, issue)
    ensures Lacks(ReadLines(r, ls), issue)
    decreases |ls|
  {
    if ls != [] {
      IssuesComeFromHeaders(ReadLine(r, ls[0]), ls[1..], issue);
    }
  }

  // ── the registry around one issue ──────────────────────────────────────────

  lemma {:induction false} RemoveIdsConcat(a: Registry, b: Registry, issue: int, ids: set<string>)
    ensures RemoveIds(a + b, issue, ids) == RemoveIds(a, issue, ids) + RemoveIds(b, issue, ids)
  {
    if a == [] {
      assert a + b == b;
    } else {
      assert (a + b)[1..] == a[1..] + b;
      RemoveIdsConcat(a[1..], b, issue, ids);
    }
  }

  lemma {:induction false} RemoveIdsElsewhere(reg: Registry, issue: int, ids: set<string>)
    requires Without(reg, issue)
    ensures RemoveIds(reg, issue, ids) == reg
  {
    if reg != [] {
      RemoveIdsElsewhere(reg[1..], issue, ids);
    }
  }

  lemma RemoveIdsOfOne(issue: int, mine: set<string>, ids: set<string>)
    ensures RemoveIds(Flush(Some(Entry(issue, mine))), issue, ids) == Flush(Some(Entry(issue, mine - ids)))
  {
    if mine != {} {
      var e := Entry(issue, mine);
      assert [e][1..] == [];
      assert RemoveIds([e], issue, ids) == Flush(Some(Entry(issue, mine - ids))) + [];
    }
  }

  /** The registry whose issue has the ids `mine`, after the entries `ahead` and before `later`. */
  function WithIssue(ahead: Registry, issue: int, mine: set<string>, later: Registry): Registry {
    ahead + Flush(Some(Entry(issue, mine))) + later
  }

  lemma RemoveIdsHere(ahead: Registry, issue: int, mine: set<string>, later: Registry, ids: set<string>)
    requires Without(ahead, issue) && Without(later, issue)
    ensures RemoveIds(WithIssue(ahead, issue, mine, later), issue, ids) == WithIssue(ahead, issue, mine - ids, later)
  {
    var f := Flush(Some(Entry(issue, mine)));
    RemoveIdsConcat(ahead + f, later, issue, ids);
    RemoveIdsConcat(ahead, f, issue, ids);
    RemoveIdsElsewhere(ahead, issue, ids);
    RemoveIdsElsewhere(later, issue, ids);
    RemoveIdsOfOne(issue, mine, ids);
  }

  lemma SameIssueSameIds(ahead: Registry, issue: int, xs: set<string>, ys: set<string>, later: Registry)
    requires xs != {}
    ensures WithIssue(ahead, issue, xs, later) == WithIssue(ahead, issue, ys, later) <==> xs == ys
  {
    var x, y, n := WithIssue(ahead, issue, xs, later), WithIssue(ahead, issue, ys, later), |ahead|;
    assert |x| == n + 1 + |later| && x[n] == Entry(issue, xs);
    if ys != {} {
      assert y[n] == Entry(issue, ys);
    } else {
      assert |y| == n + |later|;
    }
  }

  /** The registry when the header is gone but `orphans` still stand below the issue above it, if there is one. */
  function WithOrphans(earlier: Registry, current: Option<Entry>, orphans: set<string>, later: Registry, alone: bool): Option<Registry> {
    if orphans == {} then Some(earlier + Flush(current) + later)
    else if current == None then (if alone then Some(earlier) else None)
    else Some(earlier + Flush(Some(Entry(current.value.issue, current.value.ids + orphans))) + later)
  }

  lemma OrphansJoin(earlier: Registry, above: Entry, orphans: set<string>, later: Registry)
    requires orphans != {}
    ensures WithOrphans(earlier, Some(above), orphans, later, false) == Some(earlier + Flush(Some(above)) + later)
       <==> orphans <= above.ids
  {
    SameIssueSameIds(earlier, above.issue, above.ids + orphans, above.ids, later);
    assert orphans <= above.ids <==> above.ids + orphans == above.ids;
  }

  lemma OrphansAreNotTheIssue(earlier: Registry, above: Entry, orphans: set<string>, later: Registry,
                              issue: int, mine: set<string>)
    requires orphans != {} && mine != {} && Without(earlier, issue) && Without(later, issue) && above.issue != issue
    ensures WithOrphans(earlier, Some(above), orphans, later, false)
         != Some(WithIssue(earlier + Flush(Some(above)), issue, mine, later))
  {
    var e := Entry(issue, mine);
    var joined := Flush(Some(Entry(above.issue, above.ids + orphans)));
    assert above.ids + orphans != {};
    assert e in WithIssue(earlier + Flush(Some(above)), issue, mine, later) by {
      assert WithIssue(earlier + Flush(Some(above)), issue, mine, later)[|earlier + Flush(Some(above))|] == e;
    }
    assert e !in earlier && e !in joined && e !in later;
    assert e !in earlier + joined + later;
  }

  /** A list alone reads as nothing, which is what was wanted if nothing of the issue was to stay. */
  lemma ListAlone(earlier: Registry, issue: int, rest: set<string>)
    ensures Some(earlier) == Some(WithIssue(earlier + Flush(None), issue, rest, [])) <==> rest == {}
  {
    var all := WithIssue(earlier + Flush(None), issue, rest, []);
    if rest == {} {
      assert all == earlier;
    } else {
      assert |all| == |earlier| + 1;
    }
  }

  /** What is read back after the edit, from the pieces of the body. */
  function ReadBack(earlier: Registry, current: Option<Entry>, issue: int, front: set<string>, behind: set<string>,
                    later: Registry, alone: bool, ids: set<string>): Option<Registry> {
    if front - ids != {} then Some(WithIssue(earlier + Flush(current), issue, (front - ids) + behind, later))
    else WithOrphans(earlier, current, behind, later, alone)
  }

  predicate Lonely(current: Option<Entry>, later: Registry, alone: bool) {
    alone ==> current == None && later == []
  }

  /** The exact condition, on registries. */
  lemma ExactlyWhenHarmless(earlier: Registry, current: Option<Entry>, issue: int, front: set<string>,
                            behind: set<string>, later: Registry, alone: bool, ids: set<string>)
    requires Without(later, issue) && Lacks(Reader(earlier, current, false, true), issue) && Lonely(current, later, alone)
    ensures ReadBack(earlier, current, issue, front, behind, later, alone, ids)
            == Some(RemoveIds(WithIssue(earlier + Flush(current), issue, front + behind, later), issue, ids))
       <==> Harmless(front, behind, IdsOf(current), alone, ids)
  {
    var ahead := earlier + Flush(current);
    RemoveIdsHere(ahead, issue, front + behind, later, ids);
    assert (front + behind) - ids == (front - ids) + (behind - ids);
    if front - ids != {} {
      SameIssueSameIds(ahead, issue, (front - ids) + behind, (front - ids) + (behind - ids), later);
      assert behind !! ids <==> (front - ids) + behind == (front - ids) + (behind - ids);
    } else {
      assert (front - ids) + (behind - ids) == behind - ids;
      OrphansExact(earlier, current, issue, behind, later, alone, ids);
    }
  }

  lemma OrphansExact(earlier: Registry, current: Option<Entry>, issue: int, behind: set<string>, later: Registry,
                     alone: bool, ids: set<string>)
    requires Without(later, issue) && Lacks(Reader(earlier, current, false, true), issue) && Lonely(current, later, alone)
    ensures WithOrphans(earlier, current, behind, later, alone)
            == Some(WithIssue(earlier + Flush(current), issue, behind - ids, later))
       <==> behind == {} || (behind <= ids && (behind <= IdsOf(current) || alone))
  {
    var ahead := earlier + Flush(current);
    assert behind - ids == {} ==> behind <= ids by {
      assert behind <= ids + (behind - ids);
    }
    assert WithIssue(ahead, issue, {}, later) == ahead + later;
    if behind != {} && current.Some? {
      if behind <= ids {
        OrphansJoin(earlier, current.value, behind, later);
      } else {
        OrphansAreNotTheIssue(earlier, current.value, behind, later, issue, behind - ids);
      }
    } else if behind != {} && alone {
      ListAlone(earlier, issue, behind - ids);
    }
  }

  // ── the edit, piece by piece ───────────────────────────────────────────────

  lemma {:induction false} StripSkips(a: seq<Line>, b: seq<Line>, issue: int, ids: set<string>)
    requires NoHeaderOf(a, issue)
    ensures StripIssue(a + b, issue, ids) == Then(Edit(a, false), StripIssue(b, issue, ids))
  {
    if a == [] {
      assert a + b == b;
    } else {
      assert (a + b)[1..] == a[1..] + b;
      StripSkips(a[1..], b, issue, ids);
      assert [a[0]] + a[1..] == a;
      ThenAssoc(Edit([a[0]], false), Edit(a[1..], false), StripIssue(b, issue, ids));
    }
  }

  lemma StripLeaves(a: seq<Line>, issue: int, ids: set<string>)
    requires NoHeaderOf(a, issue)
    ensures StripIssue(a, issue, ids) == Edit(a, false)
  {
    StripSkips(a, [], issue, ids);
    assert a + [] == a;
  }

  lemma {:induction false} FindHeaderFinds(body: seq<Line>, issue: int)
    ensures var p := FindHeader(body, issue);
            NoHeaderOf(body[..p], issue) && (p < |body| ==> body[p].kind == Header(issue))
  {
    if body != [] && body[0].kind != Header(issue) {
      FindHeaderFinds(body[1..], issue);
      assert body[..FindHeader(body, issue)] == [body[0]] + body[1..][..FindHeader(body[1..], issue)];
    }
  }

  lemma {:induction false} UntilHeaderFinds(ls: seq<Line>)
    ensures var n := UntilHeader(ls);
            (forall i :: 0 <= i < n ==> !ls[i].kind.Header?) && (n < |ls| ==> ls[n].kind.Header?)
  {
    if ls != [] && !ls[0].kind.Header? {
      UntilHeaderFinds(ls[1..]);
      var n := UntilHeader(ls[1..]);
      assert forall i :: 0 < i < n + 1 ==> ls[i] == ls[1..][i - 1];
    }
  }

  /** What `CutAt` guarantees on a block-style body. */
  predicate CleanCut(c: Cut, issue: int, column: nat) {
    && c.header.kind == Header(issue) && c.header.margin == column
    && NoHeaderOf(c.ahead, issue) && NoHeaderOf(c.hidden + c.next, issue)
    && HeadersAndItems(c.ahead) && StartsWithHeader(c.ahead)
    && (forall i :: 0 <= i < |c.deep| ==> !Ends(c.deep[i], column)) && Fenced(c.hidden + c.next, column)
    && ItemsOnly(c.deep) && ItemsOnly(c.hidden)
    && HeadersAndItems(c.next) && (c.next == [] || c.next[0].kind.Header?)
  }

  function Joined(c: Cut): seq<Line> {
    c.ahead + ([c.header] + (c.deep + (c.hidden + c.next)))
  }

  lemma CutJoins(body: seq<Line>, p: nat, n: nat, u: nat)
    requires p + 1 + n + u <= |body|
    ensures var c := CutBody(body, p, n, u);
            body == Joined(c) && c.hidden + c.next == body[p + 1..][n..]
  {
    var rest := body[p + 1..];
    var tail := rest[n..];
    assert tail[..u] + tail[u..] == tail;
    assert rest[..n] + tail == rest;
    assert body[..p] + ([body[p]] + rest) == body;
  }

  lemma NotInTail(body: seq<Line>, p: nat, n: nat)
    requires p + 1 + n <= |body| && body[p].kind.Header? && NoRepeats(body)
    ensures NoHeaderOf(body[p + 1..][n..], body[p].kind.issue)
  {
    var tail := body[p + 1..][n..];
    forall i | 0 <= i < |tail| ensures tail[i].kind != body[p].kind {
      assert tail[i] == body[p + 1 + n + i];
    }
  }

  lemma AheadStarts(body: seq<Line>, p: nat)
    requires p <= |body| && StartsWithHeader(body)
    ensures StartsWithHeader(body[..p])
  {
    assert body == body[..p] + body[p..];
    StartOfStart(body[..p], body[p..]);
  }

  lemma InColumnsDrop(ls: seq<Line>, k: nat, column: nat)
    requires InColumns(ls, column) && k <= |ls|
    ensures InColumns(ls[k..], column)
  {
  }

  lemma DeepIsItems(rest: seq<Line>, column: nat)
    requires InColumns(rest, column)
    ensures ItemsOnly(rest[..DeepCount(rest, column)])
  {
    DeepCountFences(rest, column);
  }

  lemma TailPieces(tail: seq<Line>, column: nat)
    requires InColumns(tail, column)
    ensures var u := UntilHeader(tail);
            && ItemsOnly(tail[..u]) && HeadersAndItems(tail[u..]) && (tail[u..] == [] || tail[u..][0].kind.Header?)
  {
    UntilHeaderFinds(tail);
  }

  lemma AheadIsClean(body: seq<Line>, p: nat, column: nat)
    requires BlockStyle(body, column) && p <= |body|
    ensures HeadersAndItems(body[..p]) && StartsWithHeader(body[..p])
  {
    AheadStarts(body, p);
    forall i | 0 <= i < p && IsContent(body[i]) ensures body[i].kind.Header? || body[i].kind.Item? {
    }
  }

  /** The lines that hang below the header at `p`, and the others behind it. */
  lemma BehindIsClean(body: seq<Line>, p: nat, column: nat)
    requires BlockStyle(body, column) && p < |body| && body[p].kind.Header?
    ensures body[p].margin == column
    ensures var rest := body[p + 1..];
            var n := DeepCount(rest, column);
            (forall i :: 0 <= i < n ==> !Ends(rest[..n][i], column)) && ItemsOnly(rest[..n])
            && Fenced(rest[n..], column) && NoHeaderOf(rest[n..], body[p].kind.issue)
  {
    assert IsContent(body[p]);
    NotInTail(body, p, DeepCount(body[p + 1..], column));
    DeepCountFences(body[p + 1..], column);
    InColumnsDrop(body, p + 1, column);
    DeepIsItems(body[p + 1..], column);
  }

  lemma BehindDeepIsClean(body: seq<Line>, p: nat, column: nat)
    requires InColumns(body, column) && p < |body|
    ensures var tail := body[p + 1..][DeepCount(body[p + 1..], column)..];
            var u := UntilHeader(tail);
            && ItemsOnly(tail[..u]) && HeadersAndItems(tail[u..]) && (tail[u..] == [] || tail[u..][0].kind.Header?)
  {
    var rest := body[p + 1..];
    InColumnsDrop(body, p + 1, column);
    InColumnsDrop(rest, DeepCount(rest, column), column);
    TailPieces(rest[DeepCount(rest, column)..], column);
  }

  lemma PiecesAreClean(ahead: seq<Line>, header: Line, deep: seq<Line>, tail: seq<Line>, u: nat, issue: int, column: nat)
    requires header.kind == Header(issue) && header.margin == column && u <= |tail|
    requires HeadersAndItems(ahead) && StartsWithHeader(ahead) && NoHeaderOf(ahead, issue)
    requires (forall i :: 0 <= i < |deep| ==> !Ends(deep[i], column)) && ItemsOnly(deep)
    requires Fenced(tail, column) && NoHeaderOf(tail, issue)
    requires ItemsOnly(tail[..u]) && HeadersAndItems(tail[u..]) && (tail[u..] == [] || tail[u..][0].kind.Header?)
    ensures CleanCut(Cut(ahead, header, deep, tail[..u], tail[u..]), issue, column)
  {
    assert tail[..u] + tail[u..] == tail;
  }

  lemma CutIsClean(body: seq<Line>, issue: int, column: nat)
    requires BlockStyle(body, column) && FindHeader(body, issue) < |body|
    ensures body == Joined(CutAt(body, issue)) && CleanCut(CutAt(body, issue), issue, column)
  {
    var p := FindHeader(body, issue);
    FindHeaderFinds(body, issue);
    BehindIsClean(body, p, column);
    CutUnfolds(body, p, issue, column);
    CutAtHeaderIsClean(body, p, issue, column);
  }

  lemma CutUnfolds(body: seq<Line>, p: nat, issue: int, column: nat)
    requires p == FindHeader(body, issue) < |body| && body[p].margin == column
    ensures var rest := body[p + 1..];
            var tail := rest[DeepCount(rest, column)..];
            var u := UntilHeader(tail);
            && CutAt(body, issue) == Cut(body[..p], body[p], rest[..DeepCount(rest, column)], tail[..u], tail[u..])
            && body == Joined(CutAt(body, issue))
  {
    var rest := body[p + 1..];
    var n := DeepCount(rest, column);
    CutJoins(body, p, n, UntilHeader(rest[n..]));
  }

  lemma CutAtHeaderIsClean(body: seq<Line>, p: nat, issue: int, column: nat)
    requires BlockStyle(body, column) && p < |body| && body[p].kind == Header(issue) && NoHeaderOf(body[..p], issue)
    ensures var rest := body[p + 1..];
            var tail := rest[DeepCount(rest, column)..];
            var u := UntilHeader(tail);
            CleanCut(Cut(body[..p], body[p], rest[..DeepCount(rest, column)], tail[..u], tail[u..]), issue, column)
  {
    AheadIsClean(body, p, column);
    BehindIsClean(body, p, column);
    BehindDeepIsClean(body, p, column);
    var rest := body[p + 1..];
    var n := DeepCount(rest, column);
    PiecesAreClean(body[..p], body[p], rest[..n], rest[n..], UntilHeader(rest[n..]), issue, column);
  }

  lemma {:induction false} ContentIsIds(ls: seq<Line>)
    requires ItemsOnly(ls)
    ensures AnyContent(ls) <==> ItemIds(ls) != {}
  {
    if ls != [] {
      ContentIsIds(ls[1..]);
    }
  }

  lemma {:induction false} UnclearedIds(ls: seq<Line>, ids: set<string>)
    ensures ItemIds(Uncleared(ls, ids)) == ItemIds(ls) - ids
    ensures ItemsOnly(ls) ==> ItemsOnly(Uncleared(ls, ids))
  {
    if ls != [] {
      UnclearedIds(ls[1..], ids);
      var kept := Uncleared(ls[1..], ids);
      if !IsCleared(ls[0], ids) {
        assert ([ls[0]] + kept)[1..] == kept;
      }
    }
  }

  /** The body after the edit. */
  function Stripped(c: Cut, ids: set<string>): seq<Line> {
    var tail := c.hidden + c.next;
    c.ahead + (if ItemIds(c.deep) - ids != {} then [c.header] + (Uncleared(c.deep, ids) + tail) else tail)
  }

  lemma StripFromHeader(h: Line, deep: seq<Line>, tail: seq<Line>, issue: int, ids: set<string>)
    requires h.kind == Header(issue) && NoHeaderOf(tail, issue) && ItemsOnly(deep)
    requires (forall i :: 0 <= i < |deep| ==> !Ends(deep[i], h.margin)) && Fenced(tail, h.margin)
    ensures StripIssue([h] + (deep + tail), issue, ids).lines
         == if ItemIds(deep) - ids != {} then [h] + (Uncleared(deep, ids) + tail) else tail
  {
    var all := [h] + (deep + tail);
    assert all[1..] == deep + tail;
    DeepCountOf(deep, tail, h.margin);
    StripLeaves(tail, issue, ids);
    UnclearedIds(deep, ids);
    ContentIsIds(Uncleared(deep, ids));
    assert [h] + Uncleared(deep, ids) + tail == [h] + (Uncleared(deep, ids) + tail);
    assert [] + tail == tail;
  }

  lemma StripOfCut(c: Cut, issue: int, column: nat, ids: set<string>)
    requires CleanCut(c, issue, column)
    ensures StripIssue(Joined(c), issue, ids).lines == Stripped(c, ids)
  {
    StripSkips(c.ahead, [c.header] + (c.deep + (c.hidden + c.next)), issue, ids);
    StripFromHeader(c.header, c.deep, c.hidden + c.next, issue, ids);
  }
}
