/**
 The read side of `coord/audit.py`: keyset pagination over the audit log, newest first.

 The log is a sequence in index order, descending by `(ts, id)`.  The query text is a list of
 clauses with placeholders and, beside it, the list of values that fill them.
 */
module Audit {
  import opened Common

  datatype Row = Row(
    id: int, ts: real, tier: string, category: string, eventType: string, repo: Option<string>,
    issue: Option<int>, assignment: Option<string>)

  datatype Key = Key(ts: real, id: int)

  function KeyOf(r: Row): Key {
    Key(r.ts, r.id)
  }

  predicate Below(k: Key, limit: Key) {
    k.ts < limit.ts || (k.ts == limit.ts && k.id < limit.id)
  }

  /** Index order; ids are unique, so no key occurs twice. */
  predicate Descending(rows: seq<Row>) {
    forall i, j :: 0 <= i < j < |rows| ==> Below(KeyOf(rows[j]), KeyOf(rows[i]))
  }

  datatype Filters = Filters(
    since: Option<real>, until: Option<real>, eventType: string, category: string, repo: string,
    issue: Option<int>, assignment: string, tier: string)

  const MAX_LIMIT: int := 500
  const DEFAULT_LIMIT: int := 200

  // ── cursors ────────────────────────────────────────────────────────────────

  /** How numbers are written and read: `repr` and `float`, `str` and `int`. */
  datatype Numbers = Numbers(
    showReal: real -> string, readReal: string -> Option<real>, showInt: int -> string, readInt: string -> Option<int>)

  /** The numbers of this key are read back as they were written. */
  predicate LawfulAt(n: Numbers, k: Key) {
    && n.readReal(n.showReal(k.ts)) == Some(k.ts)
    && n.readInt(n.showInt(k.id)) == Some(k.id) && ':' !in n.showInt(k.id)
  }

  predicate LawfulOn(n: Numbers, rows: seq<Row>) {
    forall i :: 0 <= i < |rows| ==> LawfulAt(n, KeyOf(rows[i]))
  }

  function Encode(n: Numbers, k: Key): string {
    n.showReal(k.ts) + ":" + n.showInt(k.id)
  }

  /** Where the last colon stands; |s| when there is none. */
  function LastColon(s: string): (i: nat)
    ensures i <= |s|
    ensures i < |s| ==> s[i] == ':'
  {
    if s == [] then 0
    else if s[|s| - 1] == ':' then |s| - 1
    else
      var i := LastColon(s[..|s| - 1]);
      if i == |s| - 1 then |s| else i
  }

  /** A blank or malformed cursor is no cursor. */
  function Decode(n: Numbers, cursor: Option<string>): Option<Key> {
    if cursor == None || cursor.value == "" then None
    else
      var s := cursor.value;
      var i := LastColon(s);
      if i == |s| then None
      else
        var ts, id := n.readReal(s[..i]), n.readInt(s[i + 1..]);
        if ts.Some? && id.Some? then Some(Key(ts.value, id.value)) else None
  }

  lemma {:induction false} LastColonOf(a: string, b: string)
    requires ':' !in b
    ensures LastColon(a + ":" + b) == |a|
    decreases |b|
  {
    var s := a + ":" + b;
    if b == [] {
      assert s == a + ":";
    } else {
      assert s[..|s| - 1] == a + ":" + b[..|b| - 1];
      LastColonOf(a, b[..|b| - 1]);
    }
  }

  /** Cursors round-trip. */
  lemma DecodeEncode(n: Numbers, k: Key)
    requires LawfulAt(n, k)
    ensures Decode(n, Some(Encode(n, k))) == Some(k)
  {
    var a, b := n.showReal(k.ts), n.showInt(k.id);
    LastColonOf(a, b);
    var s := a + ":" + b;
    assert s[..|a|] == a && s[|a| + 1..] == b;
  }

  /** A cursor is some key's exactly when a colon splits it into two numbers; every other one starts from the newest row. */
  lemma CursorIsKey(n: Numbers, a: string, b: string)
    requires ':' !in b
    ensures Decode(n, Some(a + ":" + b)) ==
            if n.readReal(a).Some? && n.readInt(b).Some? then Some(Key(n.readReal(a).value, n.readInt(b).value)) else None
    ensures Decode(n, Some(b)) == None && Decode(n, None) == None
  {
    LastColonOf(a, b);
    var s := a + ":" + b;
    assert s[..|a|] == a && s[|a| + 1..] == b;
    NoColon(b);
  }

  lemma {:induction false} NoColon(s: string)
    requires ':' !in s
    ensures LastColon(s) == |s|
  {
    if s != [] {
      NoColon(s[..|s| - 1]);
    }
  }

  // ── writing the numbers of a log ───────────────────────────────────────────

  function Ticks(n: nat): string {
    seq(n, i => '1')
  }

  function TimeIndex(rows: seq<Row>, ts: real): (i: nat)
    ensures i <= |rows| && (i < |rows| ==> rows[i].ts == ts)
    ensures (exists r :: r in rows && r.ts == ts) ==> i < |rows|
  {
    if rows == [] || rows[0].ts == ts then 0 else 1 + TimeIndex(rows[1..], ts)
  }

  /** Times written as their place in `rows`, ids in unary. */
  function TallyOf(rows: seq<Row>): Numbers {
    Numbers(ts => Ticks(TimeIndex(rows, ts)),
            s => if |s| < |rows| then Some(rows[|s|].ts) else None,
            i => if i < 0 then "-" + Ticks(-i) else Ticks(i),
            s => if s != "" && s[0] == '-' then Some(-(|s| - 1)) else Some(|s|))
  }

  lemma UnaryReads(rows: seq<Row>, i: int)
    ensures var n := TallyOf(rows); n.readInt(n.showInt(i)) == Some(i) && ':' !in n.showInt(i)
  {
    var shown := TallyOf(rows).showInt(i);
    assert shown != "" && shown[0] == '-' <==> i < 0;
  }

  /** Every log can be written lawfully. */
  lemma EveryLogHasNumbers(rows: seq<Row>)
    ensures LawfulOn(TallyOf(rows), rows)
  {
    var n := TallyOf(rows);
    forall i | 0 <= i < |rows| ensures LawfulAt(n, KeyOf(rows[i])) {
      var r := rows[i];
      assert r in rows && |Ticks(TimeIndex(rows, r.ts))| == TimeIndex(rows, r.ts);
      UnaryReads(rows, r.id);
    }
  }

  // ── what a query means ─────────────────────────────────────────────────────

  /** A filter that is absent, or an empty string, selects everything; a missing column matches nothing. */
  predicate Matches(f: Filters, r: Row) {
    && (f.since.Some? ==> r.ts >= f.since.value)
    && (f.until.Some? ==> r.ts <= f.until.value)
    && (f.eventType != "" ==> r.eventType == f.eventType)
    && (f.category != "" ==> r.category == f.category)
    && (f.repo != "" ==> r.repo == Some(f.repo))
    && (f.issue.Some? ==> r.issue == f.issue)
    && (f.assignment != "" ==> r.assignment == Some(f.assignment))
    && (f.tier != "" ==> r.tier == f.tier)
  }

  predicate Wanted(f: Filters, after: Option<Key>, r: Row) {
    Matches(f, r) && (after.Some? ==> Below(KeyOf(r), after.value))
  }

  /** The rows a client still has to see. */
  function Remaining(table: seq<Row>, f: Filters, after: Option<Key>): seq<Row> {
    if table == [] then []
    else (if Wanted(f, after, table[0]) then [table[0]] else []) + Remaining(table[1..], f, after)
  }

  datatype Page = Page(entries: seq<Row>, next: Option<string>, more: bool)

  function Clamp(limit: Option<int>): (n: nat)
    ensures 1 <= n <= MAX_LIMIT
  {
    var asked := if limit.Some? then limit.value else DEFAULT_LIMIT;
    if asked > MAX_LIMIT then MAX_LIMIT else if asked < 1 then 1 else asked
  }

  /** The page after `after`: at most `size` of the remaining rows, and a cursor if some are left. */
  function PageOf(n: Numbers, table: seq<Row>, f: Filters, size: nat, after: Option<Key>): Page
    requires size >= 1
  {
    var rows := Remaining(table, f, after);
    if |rows| > size then Page(rows[..size], Some(Encode(n, KeyOf(rows[size - 1]))), true)
    else Page(rows, None, false)
  }

  // ── the query as it is built ───────────────────────────────────────────────

  datatype Clause = TsFrom | TsTo | EventIs | CategoryIs | RepoIs | IssueIs | AssignmentIs | TierIs | BelowKey

  datatype Value = Num(num: real) | Whole(whole: int) | Str(str: string)

  function Placeholders(c: Clause): nat {
    if c == BelowKey then 3 else 1
  }

  /** One clause with its values. */
  predicate Satisfies(c: Clause, vs: seq<Value>, r: Row)
    requires |vs| == Placeholders(c)
  {
    match c
    case TsFrom => vs[0].Num? && r.ts >= vs[0].num
    case TsTo => vs[0].Num? && r.ts <= vs[0].num
    case EventIs => vs[0].Str? && r.eventType == vs[0].str
    case CategoryIs => vs[0].Str? && r.category == vs[0].str
    case RepoIs => vs[0].Str? && r.repo == Some(vs[0].str)
    case IssueIs => vs[0].Whole? && r.issue == Some(vs[0].whole)
    case AssignmentIs => vs[0].Str? && r.assignment == Some(vs[0].str)
    case TierIs => vs[0].Str? && r.tier == vs[0].str
    case BelowKey =>
      vs[0].Num? && vs[1].Num? && vs[2].Whole?
      && (r.ts < vs[0].num || (r.ts == vs[1].num && r.id < vs[2].whole))
  }

  /** All clauses, each with the next values in line. */
  predicate Holds(cs: seq<Clause>, vs: seq<Value>, r: Row)
    decreases |cs|
  {
    if cs == [] then vs == []
    else
      var n := Placeholders(cs[0]);
      n <= |vs| && Satisfies(cs[0], vs[..n], r) && Holds(cs[1..], vs[n..], r)
  }

  function Demand(cs: seq<Clause>): nat {
    if cs == [] then 0 else Placeholders(cs[0]) + Demand(cs[1..])
  }

  lemma {:induction false} DemandAppend(cs: seq<Clause>, c: Clause)
    ensures Demand(cs + [c]) == Demand(cs) + Placeholders(c)
  {
    if cs == [] {
      assert cs + [c] == [c] && [c][1..] == [];
    } else {
      assert (cs + [c])[1..] == cs[1..] + [c];
      DemandAppend(cs[1..], c);
    }
  }

  lemma {:induction false} HoldsAppend(cs: seq<Clause>, vs: seq<Value>, c: Clause, ws: seq<Value>, r: Row)
    requires |vs| == Demand(cs) && |ws| == Placeholders(c)
    ensures Holds(cs + [c], vs + ws, r) <==> Holds(cs, vs, r) && Satisfies(c, ws, r)
    decreases |cs|
  {
    if cs == [] {
      assert cs + [c] == [c] && [c][1..] == [] && vs + ws == ws && ws[..|ws|] == ws;
    } else {
      var n := Placeholders(cs[0]);
      assert (cs + [c])[1..] == cs[1..] + [c];
      assert (vs + ws)[..n] == vs[..n] && (vs + ws)[n..] == vs[n..] + ws;
      HoldsAppend(cs[1..], vs[n..], c, ws, r);
    }
  }

  /** What a SELECT ... ORDER BY ts DESC, id DESC answers on the index. */
  function Select(table: seq<Row>, cs: seq<Clause>, vs: seq<Value>): seq<Row> {
    if table == [] then []
    else (if Holds(cs, vs, table[0]) then [table[0]] else []) + Select(table[1..], cs, vs)
  }

  lemma {:induction false} SelectIsRemaining(table: seq<Row>, cs: seq<Clause>, vs: seq<Value>, f: Filters, after: Option<Key>)
    requires forall r :: Holds(cs, vs, r) <==> Wanted(f, after, r)
    ensures Select(table, cs, vs) == Remaining(table, f, after)
  {
    if table != [] {
      SelectIsRemaining(table[1..], cs, vs, f, after);
    }
  }

  method Add(cs: seq<Clause>, vs: seq<Value>, c: Clause, ws: seq<Value>) returns (cs': seq<Clause>, vs': seq<Value>)
    requires |vs| == Demand(cs) && |ws| == Placeholders(c)
    ensures |vs'| == Demand(cs')
    ensures forall r :: Holds(cs', vs', r) <==> Holds(cs, vs, r) && Satisfies(c, ws, r)
  {
    cs', vs' := cs + [c], vs + ws;
    DemandAppend(cs, c);
    forall r ensures Holds(cs', vs', r) <==> Holds(cs, vs, r) && Satisfies(c, ws, r) {
      HoldsAppend(cs, vs, c, ws, r);
    }
  }

  predicate MatchesTimes(f: Filters, r: Row) {
    && (f.since.Some? ==> r.ts >= f.since.value)
    && (f.until.Some? ==> r.ts <= f.until.value)
  }

  method TimeClauses(f: Filters) returns (cs: seq<Clause>, vs: seq<Value>)
    ensures |vs| == Demand(cs) && forall r :: Holds(cs, vs, r) <==> MatchesTimes(f, r)
  {
    cs, vs := [], [];
    if f.since.Some? {
      cs, vs := Add(cs, vs, TsFrom, [Num(f.since.value)]);
    }
    if f.until.Some? {
      cs, vs := Add(cs, vs, TsTo, [Num(f.until.value)]);
    }
  }

  predicate MatchesColumns(f: Filters, r: Row) {
    && MatchesTimes(f, r)
    && (f.eventType != "" ==> r.eventType == f.eventType)
    && (f.category != "" ==> r.category == f.category)
    && (f.repo != "" ==> r.repo == Some(f.repo))
  }

  method ColumnClauses(f: Filters) returns (cs: seq<Clause>, vs: seq<Value>)
    ensures |vs| == Demand(cs) && forall r :: Holds(cs, vs, r) <==> MatchesColumns(f, r)
  {
    cs, vs := TimeClauses(f);
    if f.eventType != "" {
      cs, vs := Add(cs, vs, EventIs, [Str(f.eventType)]);
    }
    if f.category != "" {
      cs, vs := Add(cs, vs, CategoryIs, [Str(f.category)]);
    }
    if f.repo != "" {
      cs, vs := Add(cs, vs, RepoIs, [Str(f.repo)]);
    }
  }

  /** The WHERE clause of `query_audit_log` and its parameters, in the order they are bound. */
  method BuildWhere(f: Filters, after: Option<Key>) returns (cs: seq<Clause>, vs: seq<Value>)
    ensures |vs| == Demand(cs)
    ensures forall r :: Holds(cs, vs, r) <==> Wanted(f, after, r)
  {
    cs, vs := ColumnClauses(f);
    if f.issue.Some? {
      cs, vs := Add(cs, vs, IssueIs, [Whole(f.issue.value)]);
    }
    if f.assignment != "" {
      cs, vs := Add(cs, vs, AssignmentIs, [Str(f.assignment)]);
    }
    if f.tier != "" {
      cs, vs := Add(cs, vs, TierIs, [Str(f.tier)]);
    }
    if after.Some? {
      cs, vs := Add(cs, vs, BelowKey, [Num(after.value.ts), Num(after.value.ts), Whole(after.value.id)]);
    }
  }

  lemma OneRowExtra(rows: seq<Row>, size: nat)
    requires |rows| > size
    ensures rows[..size + 1][..size] == rows[..size]
  {
  }

  /** `query_audit_log`: one row more than the page is fetched to see whether there are more. */
  method QueryAuditLog(n: Numbers, table: seq<Row>, f: Filters, limit: Option<int>, cursor: Option<string>) returns (p: Page)
    ensures p == PageOf(n, table, f, Clamp(limit), Decode(n, cursor))
    // as many entries as were asked for, between one and the maximum, or all that remain
    ensures var rows, asked := Remaining(table, f, Decode(n, cursor)), if limit.Some? then limit.value else DEFAULT_LIMIT;
            && p.entries <= rows && |p.entries| <= MAX_LIMIT
            && (1 <= asked <= MAX_LIMIT && |rows| > asked ==> |p.entries| == asked)
            && (asked > MAX_LIMIT && |rows| > MAX_LIMIT ==> |p.entries| == MAX_LIMIT)
            && (asked < 1 && |rows| > 1 ==> |p.entries| == 1)
            && (p.next.Some? <==> p.more) && (p.more <==> |rows| > |p.entries|)
  {
    var size := Clamp(limit);
    var after := Decode(n, cursor);
    var cs, vs := BuildWhere(f, after);
    var rows := Select(table, cs, vs);
    SelectIsRemaining(table, cs, vs, f, after);
    if |rows| > size {
      OneRowExtra(rows, size);
    }
    rows := if |rows| > size + 1 then rows[..size + 1] else rows;
    var more := |rows| > size;
    rows := if more then rows[..size] else rows;
    var next := if more && rows != [] then Some(Encode(n, KeyOf(rows[|rows| - 1]))) else None;
    p := Page(rows, next, more);
  }

  // ── following the cursors ──────────────────────────────────────────────────

  /** `table` has below `limit` exactly the rows `start` has; what was inserted since lies at or above it. */
  function Under(table: seq<Row>, limit: Key): seq<Row> {
    if table == [] then []
    else (if Below(KeyOf(table[0]), limit) then [table[0]] else []) + Under(table[1..], limit)
  }

  lemma {:induction false} RemainingUnder(table: seq<Row>, f: Filters, limit: Key)
    ensures Remaining(table, f, Some(limit)) == Remaining(Under(table, limit), f, None)
  {
    if table != [] {
      RemainingUnder(table[1..], f, limit);
      if Below(KeyOf(table[0]), limit) {
        assert Under(table, limit)[1..] == Under(table[1..], limit);
      } else {
        assert Under(table, limit) == Under(table[1..], limit);
      }
    }
  }

  lemma {:induction false} RemainingMembers(table: seq<Row>, f: Filters, after: Option<Key>)
    ensures forall r :: r in Remaining(table, f, after) <==> r in table && Wanted(f, after, r)
  {
    if table != [] {
      RemainingMembers(table[1..], f, after);
      assert forall r :: r in table <==> r == table[0] || r in table[1..];
    }
  }

  lemma DescendingCons(r: Row, rows: seq<Row>)
    requires Descending(rows) && forall q :: q in rows ==> Below(KeyOf(q), KeyOf(r))
    ensures Descending([r] + rows)
  {
  }

  lemma {:induction false} RemainingIn(table: seq<Row>, f: Filters, after: Option<Key>)
    requires Descending(table)
    ensures Descending(Remaining(table, f, after))
    ensures forall r :: r in Remaining(table, f, after) <==> r in table && Wanted(f, after, r)
  {
    RemainingMembers(table, f, after);
    if table != [] {
      RemainingIn(table[1..], f, after);
      if Wanted(f, after, table[0]) {
        DescendingCons(table[0], Remaining(table[1..], f, after));
      }
    }
  }

  /** No row of the table is below one that remains, except those behind it: the first one never is. */
  lemma FirstIsAbove(table: seq<Row>, f: Filters, after: Option<Key>, r: Row)
    requires Descending(table) && table != [] && r in Remaining(table, f, after)
    ensures !Below(KeyOf(table[0]), KeyOf(r))
  {
    RemainingMembers(table, f, after);
  }

  /** After a page, what remains is the rest: the rows behind the last one on the page. */
  lemma {:induction false} RestOfRemaining(table: seq<Row>, f: Filters, after: Option<Key>, k: nat)
    requires Descending(table) && k < |Remaining(table, f, after)|
    ensures Remaining(table, f, Some(KeyOf(Remaining(table, f, after)[k]))) == Remaining(table, f, after)[k + 1..]
  {
    var rows, rest := Remaining(table, f, after), Remaining(table[1..], f, after);
    var last := KeyOf(rows[k]);
    FirstIsAbove(table, f, after, rows[k]);
    assert Remaining(table, f, Some(last)) == Remaining(table[1..], f, Some(last));
    if !Wanted(f, after, table[0]) {
      assert rows == rest;
      RestOfRemaining(table[1..], f, after, k);
    } else {
      FirstThenRest(table[0], rest, k);
      if k > 0 {
        RestOfRemaining(table[1..], f, after, k - 1);
      } else {
        AllBelowRemain(table[1..], f, after, last);
      }
    }
  }

  lemma FirstThenRest(r: Row, rest: seq<Row>, k: nat)
    requires k <= |rest|
    ensures ([r] + rest)[k + 1..] == rest[k..]
    ensures k > 0 ==> ([r] + rest)[k] == rest[k - 1]
    ensures rest[0..] == rest
  {
  }

  lemma {:induction false} AllBelowRemain(table: seq<Row>, f: Filters, after: Option<Key>, limit: Key)
    requires forall r :: r in table ==> Below(KeyOf(r), limit)
    requires after.Some? ==> Below(limit, after.value)
    ensures Remaining(table, f, Some(limit)) == Remaining(table, f, after)
  {
    if table != [] {
      AllBelowRemain(table[1..], f, after, limit);
    }
  }

  /** The entries of all pages, in the order they came. */
  function Concat(pages: seq<Page>): seq<Row> {
    if pages == [] then [] else Concat(pages[..|pages| - 1]) + pages[|pages| - 1].entries
  }

  /** The cursor position from which page `i` is read. */
  function Position(n: Numbers, pages: seq<Page>, i: nat): Option<Key>
    requires i <= |pages|
  {
    if i == 0 then None else Decode(n, pages[i - 1].next)
  }

  /**
   `pages` follow each other's cursors over a log that changes: page `i` is read from `tables[i]`,
   and up to then rows were inserted only at or above the cursor it starts from.
   */
  ghost predicate Followed(n: Numbers, tables: seq<seq<Row>>, f: Filters, size: nat, pages: seq<Page>)
    requires size >= 1
    decreases |pages|
  {
    0 < |pages| == |tables| && Descending(tables[0])
    && (var k := |pages| - 1;
        var at := Position(n, pages, k);
        && pages[k] == PageOf(n, tables[k], f, size, at)
        && (k > 0 ==>
              && pages[k - 1].more && at.Some? && Under(tables[k], at.value) == Under(tables[0], at.value)
              && Followed(n, tables[..k], f, size, pages[..k])))
  }

  /** What is still to come after all the pages, if there is more. */
  function Ahead(n: Numbers, table: seq<Row>, f: Filters, pages: seq<Page>): seq<Row>
    requires pages != []
  {
    if pages[|pages| - 1].more then Remaining(table, f, Position(n, pages, |pages|)) else []
  }

  lemma {:induction false} RemainingIsLawful(n: Numbers, rows: seq<Row>, f: Filters, at: Option<Key>)
    requires LawfulOn(n, rows)
    ensures LawfulOn(n, Remaining(rows, f, at))
  {
    if rows != [] {
      assert LawfulOn(n, rows[1..]);
      RemainingIsLawful(n, rows[1..], f, at);
    }
  }

  /** One page off the rows to come, when the table still has them all. */
  lemma PageTakesFirst(n: Numbers, start: seq<Row>, table: seq<Row>, f: Filters, size: nat, at: Option<Key>)
    requires LawfulOn(n, start) && size >= 1 && Descending(start)
    requires Remaining(table, f, at) == Remaining(start, f, at)
    ensures var p, rows := PageOf(n, table, f, size, at), Remaining(start, f, at);
            if p.more then
              |p.entries| == size && Decode(n, p.next).Some? && |rows| > size
              && p.entries + Remaining(start, f, Decode(n, p.next)) == rows
            else p.entries == rows
  {
    var rows := Remaining(start, f, at);
    if |rows| > size {
      RemainingIsLawful(n, start, f, at);
      DecodeEncode(n, KeyOf(rows[size - 1]));
      RestOfRemaining(start, f, at, size - 1);
      assert rows[..size] + rows[size..] == rows;
    }
  }

  lemma SameUnderSameRemaining(a: seq<Row>, b: seq<Row>, f: Filters, limit: Key)
    requires Under(a, limit) == Under(b, limit)
    ensures Remaining(a, f, Some(limit)) == Remaining(b, f, Some(limit))
  {
    RemainingUnder(a, f, limit);
    RemainingUnder(b, f, limit);
  }

  lemma Regroup(a: seq<Row>, b: seq<Row>, c: seq<Row>)
    ensures a + b + c == a + (b + c)
  {
  }

  lemma NoMoreNoneAhead(n: Numbers, table: seq<Row>, f: Filters, pages: seq<Page>)
    requires pages != [] && !pages[|pages| - 1].more
    ensures pages[|pages| - 1].entries + Ahead(n, table, f, pages) == pages[|pages| - 1].entries
  {
  }

  lemma {:induction false} PagesAreAPrefix(n: Numbers, tables: seq<seq<Row>>, f: Filters, size: nat, pages: seq<Page>)
    requires size >= 1 && Followed(n, tables, f, size, pages)
    requires LawfulOn(n, tables[0])
    ensures Concat(pages) + Ahead(n, tables[0], f, pages) == Remaining(tables[0], f, None)
    ensures pages[|pages| - 1].more ==> Ahead(n, tables[0], f, pages) != []
    decreases |pages|
  {
    var k := |pages| - 1;
    var at := Position(n, pages, k);
    assert pages[k] == PageOf(n, tables[k], f, size, at);
    if k > 0 {
      SameUnderSameRemaining(tables[k], tables[0], f, at.value);
      PagesAreAPrefix(n, tables[..k], f, size, pages[..k]);
      PageTakesFirst(n, tables[0], tables[k], f, size, at);
      assert Ahead(n, tables[0], f, pages[..k]) == Remaining(tables[0], f, at);
      Regroup(Concat(pages[..k]), pages[k].entries, Ahead(n, tables[0], f, pages));
      if !pages[k].more {
        NoMoreNoneAhead(n, tables[0], f, pages);
      }
    } else {
      PageTakesFirst(n, tables[0], tables[0], f, size, None);
      if !pages[k].more {
        NoMoreNoneAhead(n, tables[0], f, pages);
      }
      assert pages[..0] == [] && [] + pages[0].entries == pages[0].entries;
    }
  }

  lemma {:induction false} NoEmptyPages(n: Numbers, tables: seq<seq<Row>>, f: Filters, size: nat, pages: seq<Page>)
    requires size >= 1 && Followed(n, tables, f, size, pages) && pages[|pages| - 1].more
    ensures |Concat(pages)| >= |pages|
    decreases |pages|
  {
    var k := |pages| - 1;
    assert pages[k] == PageOf(n, tables[k], f, size, Position(n, pages, k));
    if k > 0 {
      NoEmptyPages(n, tables[..k], f, size, pages[..k]);
    }
  }

  /** Once there are no more pages, they hold every row present at the first, once each, newest first. */
  lemma PagesReturnEverything(n: Numbers, tables: seq<seq<Row>>, f: Filters, size: nat, pages: seq<Page>)
    requires size >= 1 && Followed(n, tables, f, size, pages) && !pages[|pages| - 1].more
    requires LawfulOn(n, tables[0])
    ensures Concat(pages) == Remaining(tables[0], f, None)
    ensures Descending(Concat(pages))
    ensures forall r :: r in Concat(pages) <==> r in tables[0] && Matches(f, r)
  {
    PagesAreAPrefix(n, tables, f, size, pages);
    assert Concat(pages) + [] == Concat(pages);
    RemainingIn(tables[0], f, None);
  }

  /** And they do come to an end: with every page that is not the last, fewer rows are to come. */
  lemma PagingEnds(n: Numbers, tables: seq<seq<Row>>, f: Filters, size: nat, pages: seq<Page>)
    requires size >= 1 && Followed(n, tables, f, size, pages) && pages[|pages| - 1].more
    requires LawfulOn(n, tables[0])
    ensures |Concat(pages)| + |Ahead(n, tables[0], f, pages)| == |Remaining(tables[0], f, None)|
    ensures |pages| <= |Concat(pages)| < |Remaining(tables[0], f, None)|
  {
    PagesAreAPrefix(n, tables, f, size, pages);
    NoEmptyPages(n, tables, f, size, pages);
  }

  /** From any page with more to come, the cursors lead on to a last one. */
  lemma {:induction false} FollowOn(n: Numbers, table: seq<Row>, f: Filters, size: nat, tables: seq<seq<Row>>, pages: seq<Page>)
    returns (tables': seq<seq<Row>>, pages': seq<Page>)
    requires size >= 1 && LawfulOn(n, table) && Followed(n, tables, f, size, pages)
    requires forall i :: 0 <= i < |tables| ==> tables[i] == table
    ensures Followed(n, tables', f, size, pages') && tables'[0] == table && !pages'[|pages'| - 1].more
    decreases |Ahead(n, table, f, pages)|
  {
    tables', pages' := tables, pages;
    if pages[|pages| - 1].more {
      tables', pages' := OneMorePage(n, table, f, size, tables, pages);
      tables', pages' := FollowOn(n, table, f, size, tables', pages');
    }
  }

  lemma OneMorePage(n: Numbers, table: seq<Row>, f: Filters, size: nat, tables: seq<seq<Row>>, pages: seq<Page>)
    returns (tables': seq<seq<Row>>, pages': seq<Page>)
    requires size >= 1 && LawfulOn(n, table) && Followed(n, tables, f, size, pages)
    requires (forall i :: 0 <= i < |tables| ==> tables[i] == table) && pages[|pages| - 1].more
    ensures Followed(n, tables', f, size, pages') && forall i :: 0 <= i < |tables'| ==> tables'[i] == table
    ensures |Ahead(n, table, f, pages')| < |Ahead(n, table, f, pages)|
  {
    PositionIsKey(n, tables, f, size, pages);
    PagesAreAPrefix(n, tables, f, size, pages);
    assert tables[0] == table;
    var at := Position(n, pages, |pages|);
    var page := PageOf(n, table, f, size, at);
    pages', tables' := pages + [page], tables + [table];
    PageFollows(n, table, f, size, tables, pages);
    AheadShrinks(n, table, f, size, at, pages', page);
  }

  lemma PageFollows(n: Numbers, table: seq<Row>, f: Filters, size: nat, tables: seq<seq<Row>>, pages: seq<Page>)
    requires size >= 1 && Followed(n, tables, f, size, pages) && pages[|pages| - 1].more
    requires tables[0] == table && Position(n, pages, |pages|).Some?
    ensures Followed(n, tables + [table], f, size, pages + [PageOf(n, table, f, size, Position(n, pages, |pages|))])
  {
    var page := PageOf(n, table, f, size, Position(n, pages, |pages|));
    assert (pages + [page])[..|pages|] == pages && (tables + [table])[..|pages|] == tables;
    assert Position(n, pages + [page], |pages|) == Position(n, pages, |pages|);
  }

  lemma AheadShrinks(n: Numbers, table: seq<Row>, f: Filters, size: nat, at: Option<Key>, pages: seq<Page>, page: Page)
    requires size >= 1 && LawfulOn(n, table) && Descending(table) && page == PageOf(n, table, f, size, at)
    requires pages != [] && pages[|pages| - 1] == page && Remaining(table, f, at) != []
    ensures |Ahead(n, table, f, pages)| < |Remaining(table, f, at)|
  {
    PageTakesFirst(n, table, table, f, size, at);
  }

  lemma PositionIsKey(n: Numbers, tables: seq<seq<Row>>, f: Filters, size: nat, pages: seq<Page>)
    requires size >= 1 && Followed(n, tables, f, size, pages) && LawfulOn(n, tables[0]) && pages[|pages| - 1].more
    ensures Position(n, pages, |pages|).Some?
  {
    var k := |pages| - 1;
    var at := Position(n, pages, k);
    if k > 0 {
      SameUnderSameRemaining(tables[k], tables[0], f, at.value);
    }
    PageTakesFirst(n, tables[0], tables[k], f, size, at);
  }

  /** Every log can be paged through to the end, by whatever filter and page size. */
  lemma EveryLogCanBePaged(table: seq<Row>, f: Filters, size: nat)
    returns (n: Numbers, tables: seq<seq<Row>>, pages: seq<Page>)
    requires size >= 1 && Descending(table)
    ensures LawfulOn(n, table) && Followed(n, tables, f, size, pages) && tables[0] == table
    ensures !pages[|pages| - 1].more && Concat(pages) == Remaining(table, f, None)
  {
    n := TallyOf(table);
    EveryLogHasNumbers(table);
    var first := PageOf(n, table, f, size, None);
    tables, pages := FollowOn(n, table, f, size, [table], [first]);
    PagesReturnEverything(n, tables, f, size, pages);
  }
}
