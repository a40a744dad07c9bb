/**
 Clearing, from the whole manifest's point of view.

 `ClearMeansRemove` compares the registry before and after an edit: the edit removes exactly the
 cleared ids of exactly the one issue if and only if no comment at or left of the header column
 hides items of that issue in a harmful way.
 */
module ExpectedRedClear {
  import opened Common
  import opened ExpectedRed
  import opened ExpectedRedMeaning

  // ── reading the pieces ─────────────────────────────────────────────────────

  lemma ReadAhead(c: Cut, issue: int, column: nat)
    requires CleanCut(c, issue, column)
    ensures ReadLines(START, c.ahead).ok && !ReadLines(START, c.ahead).loose && Lacks(ReadLines(START, c.ahead), issue)
    ensures ReadBlock(c.next).Some? && Without(ReadBlock(c.next).value, issue)
  {
    ReadsWell(START, c.ahead);
    ReadsWell(START, c.next);
    IssuesComeFromHeaders(START, c.ahead, issue);
    assert forall i :: 0 <= i < |c.next| ==> c.next[i] == (c.hidden + c.next)[|c.hidden| + i];
    IssuesComeFromHeaders(START, c.next, issue);
  }

  /** A body with the header of the issue above `deep`. */
  lemma ReadWithHeader(c: Cut, deep: seq<Line>, issue: int, column: nat)
    requires CleanCut(c, issue, column) && ItemsOnly(deep) && ReadBlock(c.next).Some?
    ensures var r := ReadLines(START, c.ahead);
            ReadBlock(c.ahead + ([c.header] + (deep + (c.hidden + c.next))))
            == Some(WithIssue(r.done + Flush(r.current), issue, ItemIds(deep) + ItemIds(c.hidden), ReadBlock(c.next).value))
  {
    var r := ReadLines(START, c.ahead);
    ReadAhead(c, issue, column);
    var rest := deep + (c.hidden + c.next);
    ReadLinesConcat(START, c.ahead, [c.header] + rest);
    assert ([c.header] + rest)[1..] == rest;
    var done := r.done + Flush(r.current);
    ReadLinesConcat(Reader(done, Some(Entry(issue, {})), false, true), deep, c.hidden + c.next);
    ReadItems(done, Some(Entry(issue, {})), false, true, deep);
    assert {} + ItemIds(deep) == ItemIds(deep);
    ReadLinesConcat(Reader(done, Some(Entry(issue, ItemIds(deep))), false, true), c.hidden, c.next);
    ReadItems(done, Some(Entry(issue, ItemIds(deep))), false, true, c.hidden);
    HeaderCloses(done, Some(Entry(issue, ItemIds(deep) + ItemIds(c.hidden))), c.next, ReadBlock(c.next).value);
  }

  lemma {:induction false} NeverOkAgain(r: Reader, ls: seq<Line>)
    requires !r.ok
    ensures !ReadLines(r, ls).ok
    decreases |ls|
  {
    if ls != [] {
      NeverOkAgain(ReadLine(r, ls[0]), ls[1..]);
    }
  }

  /** Behind a list nothing can be read but its end. */
  lemma ListThenHeader(done: Registry, next: seq<Line>)
    requires next == [] || next[0].kind.Header?
    ensures Finish(ReadLines(Reader(done, None, true, true), next)) == if next == [] then Some(done) else None
  {
    if next == [] {
      assert done + Flush(None) == done;
    } else {
      NeverOkAgain(ReadLine(Reader(done, None, true, true), next[0]), next[1..]);
    }
  }

  /** A body from which the header and everything below it are gone. */
  lemma ReadWithoutHeader(c: Cut, issue: int, column: nat)
    requires CleanCut(c, issue, column) && ReadBlock(c.next).Some?
    ensures var r := ReadLines(START, c.ahead);
            ReadBlock(c.ahead + (c.hidden + c.next))
            == WithOrphans(r.done, r.current, ItemIds(c.hidden), ReadBlock(c.next).value, Alone(c))
  {
    var r := ReadLines(START, c.ahead);
    ReadAhead(c, issue, column);
    ReadLinesConcat(START, c.ahead, c.hidden + c.next);
    ReadLinesConcat(r, c.hidden, c.next);
    ReadItems(r.done, r.current, r.loose, r.ok, c.hidden);
    if r.current == None && ItemIds(c.hidden) != {} {
      ListThenHeader(r.done, c.next);
    } else {
      var q := ReadLines(r, c.hidden);
      HeaderCloses(q.done, q.current, c.next, ReadBlock(c.next).value);
      if ItemIds(c.hidden) == {} && r.current.Some? {
        assert r.current.value.ids + {} == r.current.value.ids;
      }
    }
  }

  lemma BlockExact(body: seq<Line>, issue: int, column: nat, ids: set<string>)
    requires BlockStyle(body, column)
    ensures ReadBlock(body).Some?
    ensures ReadBlock(StripIssue(body, issue, ids).lines) == Some(RemoveIds(ReadBlock(body).value, issue, ids))
       <==> CommentSafe(body, issue, ids)
  {
    ReadsWell(START, body);
    if FindHeader(body, issue) == |body| {
      FindHeaderFinds(body, issue);
      assert body[..|body|] == body;
      StripLeaves(body, issue, ids);
      IssuesComeFromHeaders(START, body, issue);
      RemoveIdsElsewhere(ReadBlock(body).value, issue, ids);
    } else {
      CutIsClean(body, issue, column);
      CutExact(CutAt(body, issue), issue, column, ids);
    }
  }

  lemma CutExact(c: Cut, issue: int, column: nat, ids: set<string>)
    requires CleanCut(c, issue, column) && ReadBlock(Joined(c)).Some?
    ensures ReadBlock(StripIssue(Joined(c), issue, ids).lines) == Some(RemoveIds(ReadBlock(Joined(c)).value, issue, ids))
       <==> Harmless(ItemIds(c.deep), ItemIds(c.hidden), IdsOf(ReadLines(START, c.ahead).current), Alone(c), ids)
  {
    var r := ReadLines(START, c.ahead);
    StripOfCut(c, issue, column, ids);
    ReadAhead(c, issue, column);
    var later := ReadBlock(c.next).value;
    ReadWithHeader(c, c.deep, issue, column);
    UnclearedIds(c.deep, ids);
    if ItemIds(c.deep) - ids != {} {
      ReadWithHeader(c, Uncleared(c.deep, ids), issue, column);
    } else {
      ReadWithoutHeader(c, issue, column);
    }
    assert Alone(c) ==> later == [] by {
      assert ReadBlock([]) == Some([] + Flush(None));
    }
    ExactlyWhenHarmless(r.done, r.current, issue, ItemIds(c.deep), ItemIds(c.hidden), later, Alone(c), ids);
  }

  // ── the whole manifest ─────────────────────────────────────────────────────

  lemma {:induction false} ClearSkips(a: seq<Line>, b: seq<Line>, issue: int, ids: set<string>)
    requires NoKey(a)
    ensures ClearBlocks(a + b, issue, ids) == Then(Edit(a, false), ClearBlocks(b, issue, ids))
  {
    if a == [] {
      assert a + b == b;
    } else {
      assert (a + b)[1..] == a[1..] + b;
      ClearSkips(a[1..], b, issue, ids);
      assert [a[0]] + a[1..] == a;
      ThenAssoc(Edit([a[0]], false), Edit(a[1..], false), ClearBlocks(b, issue, ids));
    }
  }

  /** Every line outside the block is still there, in place; the key goes with its last content. */
  lemma OutsideUntouched(m: Manifest, issue: int, ids: set<string>)
    requires m.key.kind == RegistryKey && NoKey(m.before) && NoKey(m.after) && ids != {}
    requires (forall i :: 0 <= i < |m.body| ==> !Ends(m.body[i], 0)) && Fenced(m.after, 0)
    ensures var b := StripIssue(m.body, issue, ids).lines;
            Cleared(Text(m), issue, ids) == m.before + ((if AnyContent(b) then [m.key] + b else []) + m.after)
  {
    ClearSkips(m.before, [m.key] + m.body + m.after, issue, ids);
    ClearFromKey(m.key, m.body, m.after, issue, ids);
    ClearIsSubsequence(Text(m), issue, ids);
  }

  lemma ClearFromKey(key: Line, body: seq<Line>, after: seq<Line>, issue: int, ids: set<string>)
    requires key.kind == RegistryKey && NoKey(after)
    requires (forall i :: 0 <= i < |body| ==> !Ends(body[i], 0)) && Fenced(after, 0)
    ensures ClearBlocks([key] + body + after, issue, ids).lines == StripRegistry(key, body, issue, ids).lines + after
  {
    assert ([key] + body + after)[1..] == body + after;
    DeepCountOf(body, after, 0);
    ClearSkips(after, [], issue, ids);
    assert after + [] == after;
  }

  lemma {:induction false} ReadRegistrySkips(a: seq<Line>, b: seq<Line>)
    requires NoKey(a)
    ensures ReadRegistry(a + b) == ReadRegistry(b)
  {
    if a == [] {
      assert a + b == b;
    } else {
      assert (a + b)[1..] == a[1..] + b;
      ReadRegistrySkips(a[1..], b);
    }
  }

  lemma {:induction false} BlockLengthOf(body: seq<Line>, after: seq<Line>)
    requires forall i :: 0 <= i < |body| ==> !Ends(body[i], 0)
    ensures BlockLength(body + after) == |body| + BlockLength(after)
    ensures (body + after)[..|body| + BlockLength(after)] == body + after[..BlockLength(after)]
  {
    if body == [] {
      assert body + after == after;
    } else {
      assert (body + after)[1..] == body[1..] + after;
      BlockLengthOf(body[1..], after);
    }
  }

  lemma {:induction false} NoContentNoMeaning(r: Reader, ls: seq<Line>)
    requires !AnyContent(ls)
    ensures ReadLines(r, ls) == r
  {
    if ls != [] {
      NoContentNoMeaning(r, ls[1..]);
    }
  }

  lemma ReadFromKey(key: Line, rest: seq<Line>)
    requires key.kind == RegistryKey && key.indent == 0
    ensures ReadRegistry([key] + rest) == ReadBlock(rest[..BlockLength(rest)])
  {
    assert ([key] + rest)[1..] == rest;
  }

  lemma ReadUpTo(body: seq<Line>, after: seq<Line>)
    requires forall i :: 0 <= i < |body| ==> !Ends(body[i], 0)
    requires !AnyContent(after[..BlockLength(after)])
    ensures ReadBlock((body + after)[..BlockLength(body + after)]) == ReadBlock(body)
  {
    var end := after[..BlockLength(after)];
    BlockLengthOf(body, after);
    ReadLinesConcat(START, body, end);
    NoContentNoMeaning(ReadLines(START, body), end);
  }

  lemma KeyFirst(key: Line, body: seq<Line>, after: seq<Line>)
    ensures [key] + body + after == [key] + (body + after)
  {
  }

  lemma ReadTheBlock(key: Line, body: seq<Line>, after: seq<Line>)
    requires key.kind == RegistryKey && key.indent == 0
    requires forall i :: 0 <= i < |body| ==> !Ends(body[i], 0)
    requires !AnyContent(after[..BlockLength(after)])
    ensures ReadRegistry([key] + body + after) == ReadBlock(body)
  {
    KeyFirst(key, body, after);
    ReadFromKey(key, body + after);
    ReadUpTo(body, after);
  }

  /** Both texts read as their blocks. */
  lemma ReadBothTexts(m: Manifest, column: nat, issue: int, ids: set<string>)
    requires Layout(m, column) && ids != {}
    ensures ReadRegistry(Text(m)) == ReadBlock(m.body)
    ensures ReadRegistry(Cleared(Text(m), issue, ids)) == ReadBlock(StripIssue(m.body, issue, ids).lines)
  {
    var b := StripIssue(m.body, issue, ids).lines;
    ReadRegistrySkips(m.before, [m.key] + m.body + m.after);
    ReadTheBlock(m.key, m.body, m.after);
    OutsideUntouched(m, issue, ids);
    if AnyContent(b) {
      StripIsSubsequence(m.body, issue, ids);
      SubsequenceMembers(b, m.body);
      assert forall i :: 0 <= i < |b| ==> b[i] in m.body;
      ReadRegistrySkips(m.before, [m.key] + b + m.after);
      ReadTheBlock(m.key, b, m.after);
    } else {
      assert [] + m.after == m.after && m.after + [] == m.after;
      ReadRegistrySkips(m.before, m.after);
      ReadRegistrySkips(m.after, []);
      NoContentNoMeaning(START, b);
      assert [] + Flush(None) == [];
    }
  }

  lemma {:induction false} NoEntryIsEmpty(r: Reader, ls: seq<Line>)
    requires forall e :: e in r.done ==> e.ids != {}
    ensures forall e :: e in ReadLines(r, ls).done ==> e.ids != {}
    decreases |ls|
  {
    if ls != [] {
      NoEntryIsEmpty(ReadLine(r, ls[0]), ls[1..]);
    }
  }

  lemma {:induction false} RemoveNoIds(reg: Registry, issue: int)
    requires forall e :: e in reg ==> e.ids != {}
    ensures RemoveIds(reg, issue, {}) == reg
  {
    if reg != [] {
      RemoveNoIds(reg[1..], issue);
      assert reg[0].ids - {} == reg[0].ids;
    }
  }

  /**
   Clearing removes exactly the cleared ids of exactly the one issue if and only if no comment
   at or left of the header column stands between the items of that issue in a harmful way.
   */
  lemma ClearMeansRemove(m: Manifest, column: nat, issue: int, ids: set<string>)
    requires Layout(m, column)
    ensures ReadRegistry(Text(m)).Some?
    ensures ReadRegistry(Cleared(Text(m), issue, ids)) == Some(RemoveIds(ReadRegistry(Text(m)).value, issue, ids))
       <==> ids == {} || CommentSafe(m.body, issue, ids)
  {
    BlockExact(m.body, issue, column, ids);
    if ids == {} {
      ReadRegistrySkips(m.before, [m.key] + m.body + m.after);
      ReadTheBlock(m.key, m.body, m.after);
      NoEntryIsEmpty(START, m.body);
      RemoveNoIds(ReadBlock(m.body).value, issue);
    } else {
      ReadBothTexts(m, column, issue, ids);
    }
  }

  /** In particular: without a comment at or left of the header column inside the body. */
  lemma DeepCommentsAreSafe(m: Manifest, column: nat, issue: int, ids: set<string>)
    requires Layout(m, column)
    requires forall l :: l in m.body && l.kind == Comment ==> l.indent > column
    ensures ReadRegistry(Text(m)).Some?
    ensures ReadRegistry(Cleared(Text(m), issue, ids)) == Some(RemoveIds(ReadRegistry(Text(m)).value, issue, ids))
  {
    ClearMeansRemove(m, column, issue, ids);
    if FindHeader(m.body, issue) < |m.body| {
      NothingHidden(m.body, issue, column);
    }
  }

  lemma NothingHidden(body: seq<Line>, issue: int, column: nat)
    requires BlockStyle(body, column) && FindHeader(body, issue) < |body|
    requires forall l :: l in body && l.kind == Comment ==> l.indent > column
    ensures CutAt(body, issue).hidden == []
  {
    var c := CutAt(body, issue);
    CutIsClean(body, issue, column);
    if c.hidden != [] {
      DeepLine(c, body, issue, column);
    }
  }

  lemma DeepLine(c: Cut, body: seq<Line>, issue: int, column: nat)
    requires CleanCut(c, issue, column) && body == Joined(c) && InColumns(body, column) && c.hidden != []
    ensures exists l :: l in body && l.kind == Comment && l.indent <= column
  {
    var l := (c.hidden + c.next)[0];
    assert l == c.hidden[0] && l in Joined(c);
    assert IsContent(l) ==> l.kind.Item? && l.indent > column;
    assert Ends(l, column);
  }

  const SHALLOW_COMMENT := Line(2, 2, Comment, "  # second half")

  const SHALLOW_BODY := [WIDE_HEADER, CLEARED_ITEM, SHALLOW_COMMENT, OTHER_ITEM]

  lemma IdsOfOne(l: Line)
    requires l.kind.Item?
    ensures ItemIds([l]) == {l.kind.id}
  {
    assert [l][1..] == [] && ItemIds([]) == {};
    assert {l.kind.id} + {} == {l.kind.id};
  }

  lemma ShallowPieces()
    ensures FindHeader(SHALLOW_BODY, 1) == 0
    ensures CutAt(SHALLOW_BODY, 1) == Cut([], WIDE_HEADER, [CLEARED_ITEM], [SHALLOW_COMMENT, OTHER_ITEM], [])
  {
    var a, c, b := CLEARED_ITEM, SHALLOW_COMMENT, OTHER_ITEM;
    assert SHALLOW_BODY[1..] == [a, c, b];
    assert [a, c, b][1..] == [c, b];
    assert [c, b][1..] == [b];
    assert [b][1..] == [];
    assert DeepCount([c, b], 2) == 0;
    assert DeepCount([a, c, b], 2) == 1;
    assert UntilHeader([]) == 0;
    assert UntilHeader([b]) == 1;
    assert UntilHeader([c, b]) == 2;
    assert [a, c, b][..1] == [a];
  }

  lemma ShallowLayout()
    ensures Layout(Manifest([], KEY_LINE, SHALLOW_BODY, []), 2)
  {
    var body := SHALLOW_BODY;
    assert body[0] == WIDE_HEADER && body[1] == CLEARED_ITEM && body[2] == SHALLOW_COMMENT && body[3] == OTHER_ITEM;
    assert BlockLength([]) == 0;
  }

  lemma ShallowIds()
    ensures ItemIds([CLEARED_ITEM]) == {"a"} && ItemIds([SHALLOW_COMMENT, OTHER_ITEM]) == {"b"}
  {
    IdsOfOne(CLEARED_ITEM);
    IdsOfOne(OTHER_ITEM);
    assert [SHALLOW_COMMENT, OTHER_ITEM][1..] == [OTHER_ITEM];
    assert {} + ItemIds([OTHER_ITEM]) == {"b"};
  }

  /** A comment in the header column hides `b`; clearing `a` then takes the header from `b` as well. */
  lemma ShallowCommentBreaksClearing() returns (m: Manifest, ids: set<string>)
    ensures Layout(m, 2)
    ensures ReadRegistry(Text(m)).Some?
    ensures ReadRegistry(Cleared(Text(m), 1, ids)) != Some(RemoveIds(ReadRegistry(Text(m)).value, 1, ids))
  {
    m, ids := Manifest([], KEY_LINE, SHALLOW_BODY, []), {"a"};
    ShallowLayout();
    ShallowPieces();
    ShallowIds();
    assert "b"[0] != "a"[0];
    assert !CommentSafe(m.body, 1, ids);
    ClearMeansRemove(m, 2, 1, ids);
  }
}
