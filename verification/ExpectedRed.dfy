/**
 The text surgery of `coord/acceptance.py` that removes cleared test ids from the
 `expected_red:` block of a manifest without touching any other line.

 A manifest is a sequence of classified lines; `Clear` is the line editor.  What the block
 means before and after an edit is compared in module ExpectedRedClear.
 */
module ExpectedRed {
  import opened Common

  /** `Header(n)` is a line `n:` on its own, `Item(id)` a list item whose scalar is the string `id`. */
  datatype Kind = Blank | Comment | RegistryKey | Header(issue: int) | Item(id: string) | OtherContent

  /** `indent` counts leading spaces, `margin` all leading white space; `text` is the line itself. */
  datatype Line = Line(indent: nat, margin: nat, kind: Kind, text: string)

  /** `_is_content_line` */
  predicate IsContent(l: Line) {
    l.kind != Blank && l.kind != Comment
  }

  predicate AnyContent(ls: seq<Line>) {
    ls != [] && (IsContent(ls[0]) || AnyContent(ls[1..]))
  }

  /** A non-blank line at or left of `margin` ends a block that hangs below it. */
  predicate Ends(l: Line, margin: nat) {
    l.kind != Blank && l.indent <= margin
  }

  /** How many lines hang below a header at `margin`. */
  function DeepCount(ls: seq<Line>, margin: nat): (n: nat)
    ensures n <= |ls|
  {
    if ls == [] || Ends(ls[0], margin) then 0 else 1 + DeepCount(ls[1..], margin)
  }

  predicate IsCleared(l: Line, ids: set<string>) {
    l.kind.Item? && l.kind.id in ids
  }

  function Uncleared(ls: seq<Line>, ids: set<string>): (r: seq<Line>)
    ensures |r| <= |ls| && (|r| == |ls| ==> r == ls)
  {
    if ls == [] then []
    else if IsCleared(ls[0], ids) then Uncleared(ls[1..], ids)
    else [ls[0]] + Uncleared(ls[1..], ids)
  }

  datatype Edit = Edit(lines: seq<Line>, changed: bool)

  // ── the editor, on values ──────────────────────────────────────────────────

  /** One `issue:` block: cleared items go, and the header goes with its last content. */
  function StripBlock(header: Line, sub: seq<Line>, ids: set<string>): (e: Edit)
    ensures !e.changed ==> e.lines == [header] + sub
  {
    var kept := Uncleared(sub, ids);
    if AnyContent(kept) then Edit([header] + kept, |kept| < |sub|) else Edit([], true)
  }

  /** What one turn of a loop emits, and the lines still to read. */
  datatype Turn = Turn(edit: Edit, rest: seq<Line>)

  function Then(a: Edit, b: Edit): Edit {
    Edit(a.lines + b.lines, a.changed || b.changed)
  }

  function StripTurn(body: seq<Line>, issue: int, ids: set<string>): (t: Turn)
    requires body != []
    ensures |t.rest| < |body|
  {
    if body[0].kind != Header(issue) then Turn(Edit([body[0]], false), body[1..])
    else
      var n := DeepCount(body[1..], body[0].margin);
      Turn(StripBlock(body[0], body[1..][..n], ids), body[1..][n..])
  }

  /** `_strip_cleared_ids_from_issue_block` */
  function StripIssue(body: seq<Line>, issue: int, ids: set<string>): Edit
    decreases |body|
  {
    if body == [] then Edit([], false)
    else
      var t := StripTurn(body, issue, ids);
      Then(t.edit, StripIssue(t.rest, issue, ids))
  }

  /** One `expected_red:` block: the key goes with its last content. */
  function StripRegistry(key: Line, body: seq<Line>, issue: int, ids: set<string>): Edit {
    var b := StripIssue(body, issue, ids);
    if AnyContent(b.lines) then Edit([key] + b.lines, b.changed) else Edit([], true)
  }

  function ClearTurn(ls: seq<Line>, issue: int, ids: set<string>): (t: Turn)
    requires ls != []
    ensures |t.rest| < |ls|
  {
    if ls[0].kind != RegistryKey then Turn(Edit([ls[0]], false), ls[1..])
    else
      var n := DeepCount(ls[1..], 0);
      Turn(StripRegistry(ls[0], ls[1..][..n], issue, ids), ls[1..][n..])
  }

  function ClearBlocks(ls: seq<Line>, issue: int, ids: set<string>): Edit
    decreases |ls|
  {
    if ls == [] then Edit([], false)
    else
      var t := ClearTurn(ls, issue, ids);
      Then(t.edit, ClearBlocks(t.rest, issue, ids))
  }

  /** `clear_expected_red_entries`: `None` when there is nothing to commit. */
  function Clear(text: seq<Line>, issue: int, ids: set<string>): Option<seq<Line>> {
    if ids == {} || !ClearBlocks(text, issue, ids).changed then None
    else Some(ClearBlocks(text, issue, ids).lines)
  }

  /** The manifest after the call: the returned text, or the old one. */
  function Cleared(text: seq<Line>, issue: int, ids: set<string>): seq<Line> {
    var r := Clear(text, issue, ids);
    if r.Some? then r.value else text
  }

  // ── the editor, as the source runs it ──────────────────────────────────────

  method TakeDeep(ls: seq<Line>, start: nat, margin: nat) returns (sub: seq<Line>, i: nat)
    requires start <= |ls|
    ensures i == start + DeepCount(ls[start..], margin) <= |ls|
    ensures sub == ls[start..i]
  {
    sub, i := [], start;
    while i < |ls|
      invariant start <= i <= |ls| && sub == ls[start..i]
      invariant i + DeepCount(ls[i..], margin) == start + DeepCount(ls[start..], margin)
    {
      if ls[i].kind != Blank && ls[i].indent <= margin {
        break;
      }
      assert ls[i..][1..] == ls[i + 1..];
      sub, i := sub + [ls[i]], i + 1;
    }
  }

  lemma {:induction false} UnclearedAppend(ls: seq<Line>, l: Line, ids: set<string>)
    ensures Uncleared(ls + [l], ids) == Uncleared(ls, ids) + (if IsCleared(l, ids) then [] else [l])
  {
    if ls != [] {
      assert (ls + [l])[1..] == ls[1..] + [l];
      UnclearedAppend(ls[1..], l, ids);
    }
  }

  method DropCleared(sub: seq<Line>, ids: set<string>) returns (kept: seq<Line>, dropped: bool)
    ensures kept == Uncleared(sub, ids)
    ensures dropped <==> |kept| < |sub|
  {
    kept, dropped := [], false;
    for k := 0 to |sub|
      invariant kept == Uncleared(sub[..k], ids)
      invariant dropped <==> |kept| < k
    {
      assert sub[..k + 1] == sub[..k] + [sub[k]];
      UnclearedAppend(sub[..k], sub[k], ids);
      if sub[k].kind.Item? && sub[k].kind.id in ids {
        dropped := true;
        continue;
      }
      kept := kept + [sub[k]];
    }
    assert sub[..|sub|] == sub;
  }

  method HasContent(ls: seq<Line>) returns (found: bool)
    ensures found <==> AnyContent(ls)
  {
    found := false;
    for k := 0 to |ls|
      invariant !found && AnyContent(ls) == AnyContent(ls[k..])
    {
      assert ls[k..][1..] == ls[k + 1..];
      if IsContent(ls[k]) {
        return true;
      }
    }
  }

  method StripOneBlock(line: Line, sub: seq<Line>, ids: set<string>) returns (out: seq<Line>, changed: bool)
    ensures Edit(out, changed) == StripBlock(line, sub, ids)
  {
    out, changed := [], false;
    var kept, dropped := DropCleared(sub, ids);
    if dropped {
      changed := true;
    }
    var some := HasContent(kept);
    if some {
      out := [line] + kept;
    } else {
      changed := true;
    }
  }

  lemma ThenAssoc(a: Edit, b: Edit, c: Edit)
    ensures Then(Then(a, b), c) == Then(a, Then(b, c))
  {
    assert (a.lines + b.lines) + c.lines == a.lines + (b.lines + c.lines);
  }

  lemma SliceOfRest(ls: seq<Line>, i: nat, j: nat)
    requires i <= j <= |ls|
    ensures ls[i..][..j - i] == ls[i..j] && ls[i..][j - i..] == ls[j..]
  {
  }

  /** The body of the loop in `_strip_cleared_ids_from_issue_block`. */
  method StripOneTurn(body: seq<Line>, start: nat, issue: int, ids: set<string>)
    returns (out: seq<Line>, changed: bool, i: nat)
    requires start < |body|
    ensures start < i <= |body|
    ensures Turn(Edit(out, changed), body[i..]) == StripTurn(body[start..], issue, ids)
  {
    var line := body[start];
    i := start + 1;
    assert body[i..] == body[start..][1..];
    if line.kind != Header(issue) {
      return [line], false, i;
    }
    var sub, next := TakeDeep(body, i, line.margin);
    SliceOfRest(body, i, next);
    i := next;
    out, changed := StripOneBlock(line, sub, ids);
  }

  method StripClearedIds(body: seq<Line>, issue: int, ids: set<string>) returns (out: seq<Line>, changed: bool)
    ensures Edit(out, changed) == StripIssue(body, issue, ids)
  {
    out, changed := [], false;
    var i := 0;
    assert body[0..] == body;
    while i < |body|
      invariant i <= |body|
      invariant StripIssue(body, issue, ids) == Then(Edit(out, changed), StripIssue(body[i..], issue, ids))
      decreases |body| - i
    {
      ghost var t := StripTurn(body[i..], issue, ids);
      ThenAssoc(Edit(out, changed), t.edit, StripIssue(t.rest, issue, ids));
      var lines, edited;
      lines, edited, i := StripOneTurn(body, i, issue, ids);
      out, changed := out + lines, changed || edited;
    }
    assert out + [] == out;
  }

  method StripOneRegistry(line: Line, body: seq<Line>, issue: int, ids: set<string>)
    returns (out: seq<Line>, changed: bool)
    ensures Edit(out, changed) == StripRegistry(line, body, issue, ids)
  {
    out, changed := [], false;
    var newBody, bodyChanged := StripClearedIds(body, issue, ids);
    if bodyChanged {
      changed := true;
    }
    var some := HasContent(newBody);
    if some {
      out := [line] + newBody;
    } else {
      changed := true;
    }
  }

  /** The body of the loop in `clear_expected_red_entries`. */
  method ClearOneTurn(text: seq<Line>, start: nat, issue: int, ids: set<string>)
    returns (out: seq<Line>, changed: bool, i: nat)
    requires start < |text|
    ensures start < i <= |text|
    ensures Turn(Edit(out, changed), text[i..]) == ClearTurn(text[start..], issue, ids)
  {
    var line := text[start];
    i := start + 1;
    assert text[i..] == text[start..][1..];
    if line.kind != RegistryKey {
      return [line], false, i;
    }
    var body, next := TakeDeep(text, i, 0);
    SliceOfRest(text, i, next);
    i := next;
    out, changed := StripOneRegistry(line, body, issue, ids);
  }

  method ClearExpectedRedEntries(text: seq<Line>, issue: int, ids: set<string>) returns (r: Option<seq<Line>>)
    ensures r == Clear(text, issue, ids)
  {
    if ids == {} {
      return None;
    }
    var out: seq<Line>, changed := [], false;
    var i := 0;
    assert text[0..] == text;
    while i < |text|
      invariant i <= |text|
      invariant ClearBlocks(text, issue, ids) == Then(Edit(out, changed), ClearBlocks(text[i..], issue, ids))
      decreases |text| - i
    {
      ghost var t := ClearTurn(text[i..], issue, ids);
      ThenAssoc(Edit(out, changed), t.edit, ClearBlocks(t.rest, issue, ids));
      var lines, edited;
      lines, edited, i := ClearOneTurn(text, i, issue, ids);
      out, changed := out + lines, changed || edited;
    }
    assert out + [] == out;
    r := if changed then Some(out) else None;
  }

  // ── only whole lines disappear ─────────────────────────────────────────────

  ghost predicate Subsequence(xs: seq<Line>, ys: seq<Line>) {
    xs == [] ||
    (ys != [] && ((xs[0] == ys[0] && Subsequence(xs[1..], ys[1..])) || Subsequence(xs, ys[1..])))
  }

  lemma {:induction false} SubsequenceConcat(a: seq<Line>, b: seq<Line>, c: seq<Line>, d: seq<Line>)
    requires Subsequence(a, b) && Subsequence(c, d)
    ensures Subsequence(a + c, b + d)
    decreases |b|
  {
    if b == [] {
      assert a + c == c && b + d == d;
    } else if a != [] && a[0] == b[0] && Subsequence(a[1..], b[1..]) {
      SubsequenceConcat(a[1..], b[1..], c, d);
      assert (a + c)[1..] == a[1..] + c && (b + d)[1..] == b[1..] + d;
    } else {
      SubsequenceConcat(a, b[1..], c, d);
      assert (b + d)[1..] == b[1..] + d;
    }
  }

  lemma SubsequenceCons(x: Line, xs: seq<Line>, ys: seq<Line>)
    requires Subsequence(xs, ys)
    ensures Subsequence([x] + xs, [x] + ys)
  {
    assert ([x] + xs)[1..] == xs && ([x] + ys)[1..] == ys;
  }

  lemma {:induction false} UnclearedIsSubsequence(ls: seq<Line>, ids: set<string>)
    ensures Subsequence(Uncleared(ls, ids), ls)
  {
    if ls != [] {
      UnclearedIsSubsequence(ls[1..], ids);
      SubsequenceCons(ls[0], Uncleared(ls[1..], ids), ls[1..]);
      assert ls == [ls[0]] + ls[1..];
    }
  }

  /** What a turn consumes: the lines in front of the rest. */
  function Consumed(ls: seq<Line>, t: Turn): seq<Line>
    requires |t.rest| <= |ls|
  {
    ls[..|ls| - |t.rest|]
  }

  lemma StripTurnIsSubsequence(body: seq<Line>, issue: int, ids: set<string>)
    requires body != []
    ensures var t := StripTurn(body, issue, ids);
            body == Consumed(body, t) + t.rest && Subsequence(t.edit.lines, Consumed(body, t))
    ensures var t := StripTurn(body, issue, ids); !t.edit.changed ==> t.edit.lines == Consumed(body, t)
  {
    var t := StripTurn(body, issue, ids);
    if body[0].kind != Header(issue) {
      assert Consumed(body, t) == [body[0]] && [body[0]][1..] == [];
    } else {
      var sub := body[1..][..DeepCount(body[1..], body[0].margin)];
      assert Consumed(body, t) == [body[0]] + sub;
      UnclearedIsSubsequence(sub, ids);
      SubsequenceCons(body[0], Uncleared(sub, ids), sub);
    }
  }

  lemma {:induction false} StripIsSubsequence(body: seq<Line>, issue: int, ids: set<string>)
    ensures Subsequence(StripIssue(body, issue, ids).lines, body)
    ensures !StripIssue(body, issue, ids).changed ==> StripIssue(body, issue, ids).lines == body
    decreases |body|
  {
    if body != [] {
      var t := StripTurn(body, issue, ids);
      StripTurnIsSubsequence(body, issue, ids);
      StripIsSubsequence(t.rest, issue, ids);
      SubsequenceConcat(t.edit.lines, Consumed(body, t), StripIssue(t.rest, issue, ids).lines, t.rest);
    }
  }

  lemma ClearTurnIsSubsequence(ls: seq<Line>, issue: int, ids: set<string>)
    requires ls != []
    ensures var t := ClearTurn(ls, issue, ids);
            ls == Consumed(ls, t) + t.rest && Subsequence(t.edit.lines, Consumed(ls, t))
    ensures var t := ClearTurn(ls, issue, ids); !t.edit.changed ==> t.edit.lines == Consumed(ls, t)
  {
    var t := ClearTurn(ls, issue, ids);
    if ls[0].kind != RegistryKey {
      assert Consumed(ls, t) == [ls[0]] && [ls[0]][1..] == [];
    } else {
      var body := ls[1..][..DeepCount(ls[1..], 0)];
      assert Consumed(ls, t) == [ls[0]] + body;
      StripIsSubsequence(body, issue, ids);
      SubsequenceCons(ls[0], StripIssue(body, issue, ids).lines, body);
    }
  }

  /** The editor deletes whole lines and does nothing else; without a change it deletes none. */
  lemma {:induction false} ClearIsSubsequence(ls: seq<Line>, issue: int, ids: set<string>)
    ensures Subsequence(ClearBlocks(ls, issue, ids).lines, ls)
    ensures !ClearBlocks(ls, issue, ids).changed ==> ClearBlocks(ls, issue, ids).lines == ls
    decreases |ls|
  {
    if ls != [] {
      var t := ClearTurn(ls, issue, ids);
      ClearTurnIsSubsequence(ls, issue, ids);
      ClearIsSubsequence(t.rest, issue, ids);
      SubsequenceConcat(t.edit.lines, Consumed(ls, t), ClearBlocks(t.rest, issue, ids).lines, t.rest);
    }
  }

  // ── clearing twice ─────────────────────────────────────────────────────────

  /** Leading spaces are leading white space: true of every line of text. */
  predicate Measured(ls: seq<Line>) {
    forall l :: l in ls ==> l.indent <= l.margin
  }

  /** Indentation by spaces only. */
  predicate SpacesOnly(ls: seq<Line>) {
    forall l :: l in ls ==> l.margin == l.indent
  }

  /** Whatever comes next cannot be taken for lines hanging below `margin`. */
  predicate Fenced(ls: seq<Line>, margin: nat) {
    ls == [] || Ends(ls[0], margin)
  }

  lemma {:induction false} DeepCountFences(ls: seq<Line>, margin: nat)
    ensures Fenced(ls[DeepCount(ls, margin)..], margin)
    ensures forall i :: 0 <= i < DeepCount(ls, margin) ==> !Ends(ls[i], margin)
  {
    if ls != [] && !Ends(ls[0], margin) {
      DeepCountFences(ls[1..], margin);
      var n := DeepCount(ls[1..], margin);
      assert ls[n + 1..] == ls[1..][n..];
      assert forall i :: 0 < i < n + 1 ==> ls[i] == ls[1..][i - 1];
    }
  }

  predicate NoneEnds(ls: seq<Line>, margin: nat) {
    forall l :: l in ls ==> !Ends(l, margin)
  }

  lemma {:induction false} DeepCountPast(deep: seq<Line>, rest: seq<Line>, margin: nat)
    requires NoneEnds(deep, margin)
    ensures DeepCount(deep + rest, margin) == |deep| + DeepCount(rest, margin)
  {
    if deep == [] {
      assert deep + rest == rest;
    } else {
      DeepCountPast(deep[1..], rest, margin);
      assert (deep + rest)[1..] == deep[1..] + rest;
    }
  }

  lemma DeepCountOf(deep: seq<Line>, rest: seq<Line>, margin: nat)
    requires forall i :: 0 <= i < |deep| ==> !Ends(deep[i], margin)
    requires Fenced(rest, margin)
    ensures DeepCount(deep + rest, margin) == |deep|
    ensures (deep + rest)[..|deep|] == deep && (deep + rest)[|deep|..] == rest
  {
    DeepCountPast(deep, rest, margin);
  }

  predicate NoneCleared(ls: seq<Line>, ids: set<string>) {
    forall l :: l in ls ==> !IsCleared(l, ids)
  }

  lemma {:induction false} UnclearedMembers(ls: seq<Line>, ids: set<string>)
    ensures NoneCleared(Uncleared(ls, ids), ids) && forall l :: l in Uncleared(ls, ids) ==> l in ls
  {
    if ls != [] {
      UnclearedMembers(ls[1..], ids);
    }
  }

  lemma {:induction false} UnclearedSame(ls: seq<Line>, ids: set<string>)
    ensures Uncleared(ls, ids) == ls <==> NoneCleared(ls, ids)
    ensures |Uncleared(ls, ids)| < |ls| <==> !NoneCleared(ls, ids)
  {
    if ls != [] {
      UnclearedSame(ls[1..], ids);
      assert forall l :: l in ls <==> l == ls[0] || l in ls[1..];
    }
  }

  lemma {:induction false} ContentConcat(a: seq<Line>, b: seq<Line>)
    ensures AnyContent(a + b) <==> AnyContent(a) || AnyContent(b)
  {
    if a == [] {
      assert a + b == b;
    } else {
      assert (a + b)[1..] == a[1..] + b;
      ContentConcat(a[1..], b);
    }
  }

  lemma {:induction false} UnclearedConcat(a: seq<Line>, b: seq<Line>, ids: set<string>)
    ensures Uncleared(a + b, ids) == Uncleared(a, ids) + Uncleared(b, ids)
  {
    if a == [] {
      assert a + b == b;
    } else {
      assert (a + b)[1..] == a[1..] + b;
      UnclearedConcat(a[1..], b, ids);
    }
  }

  /**
   Reading the body once more after an edit: is there a cleared item that now hangs below a header of
   the issue that stayed, because a header between them went?  `open` is the margin of the header
   under which the edited text stands at this point, if any.
   */
  predicate Exposes(body: seq<Line>, issue: int, ids: set<string>, open: Option<nat>)
    decreases |body|
  {
    if body == [] then false
    else
      var l, t := body[0], StripTurn(body, issue, ids);
      var inside := open.Some? && !Ends(l, open.value);
      if l.kind != Header(issue) then
        (inside && IsCleared(l, ids)) || Exposes(t.rest, issue, ids, if inside then open else None)
      else if t.edit.lines == [] then Exposes(t.rest, issue, ids, open)
      else Exposes(t.rest, issue, ids, if inside then open else Some(l.margin))
  }

  /** Nothing to do for a second pass that reaches `ls` below a header at `open`, if any. */
  predicate Stable(ls: seq<Line>, issue: int, ids: set<string>, open: Option<nat>) {
    if open == None then !StripIssue(ls, issue, ids).changed
    else
      var n := DeepCount(ls, open.value);
      NoneCleared(ls[..n], ids) && !StripIssue(ls[n..], issue, ids).changed
  }

  /** One more line below the header. */
  lemma StableCons(l: Line, ls: seq<Line>, issue: int, ids: set<string>, margin: nat)
    requires !Ends(l, margin)
    ensures Stable([l] + ls, issue, ids, Some(margin)) <==> !IsCleared(l, ids) && Stable(ls, issue, ids, Some(margin))
  {
    assert ([l] + ls)[1..] == ls;
    var n := DeepCount(ls, margin);
    assert ([l] + ls)[..n + 1] == [l] + ls[..n] && ([l] + ls)[n + 1..] == ls[n..];
    assert forall x :: x in [l] + ls[..n] <==> x == l || x in ls[..n];
  }

  /** Where the lines below the header end, it is forgotten. */
  lemma StableOut(l: Line, ls: seq<Line>, issue: int, ids: set<string>, margin: nat)
    requires Ends(l, margin)
    ensures Stable([l] + ls, issue, ids, Some(margin)) <==> Stable([l] + ls, issue, ids, None)
  {
    assert ([l] + ls)[..0] == [] && ([l] + ls)[0..] == [l] + ls;
  }

  lemma {:induction false} StableAfter(deep: seq<Line>, ls: seq<Line>, issue: int, ids: set<string>, margin: nat)
    requires NoneEnds(deep, margin) && NoneCleared(deep, ids)
    ensures Stable(deep + ls, issue, ids, Some(margin)) <==> Stable(ls, issue, ids, Some(margin))
  {
    if deep == [] {
      assert deep + ls == ls;
    } else {
      assert deep + ls == [deep[0]] + (deep[1..] + ls);
      StableCons(deep[0], deep[1..] + ls, issue, ids, margin);
      StableAfter(deep[1..], ls, issue, ids, margin);
    }
  }

  /** A header that stays opens its own block. */
  lemma StableHeader(h: Line, kept: seq<Line>, ls: seq<Line>, issue: int, ids: set<string>)
    requires h.kind == Header(issue) && AnyContent(kept) && NoneEnds(kept, h.margin) && NoneCleared(kept, ids)
    ensures Stable([h] + (kept + ls), issue, ids, None) <==> Stable(ls, issue, ids, Some(h.margin))
  {
    DeepCountPast(kept, ls, h.margin);
    var n := DeepCount(ls, h.margin);
    SplitPast(kept, ls, n);
    HeaderChanges(h, kept + ls[..n], ls[n..], issue, ids);
    BlockPast(h, kept, ls[..n], ids);
  }

  lemma SplitPast(a: seq<Line>, b: seq<Line>, n: nat)
    requires n <= |b|
    ensures a + b == (a + b[..n]) + b[n..] && |a + b[..n]| == |a| + n
  {
  }

  /** A header's block and what comes behind it. */
  lemma HeaderChanges(h: Line, deep: seq<Line>, rest: seq<Line>, issue: int, ids: set<string>)
    requires h.kind == Header(issue) && DeepCount(deep + rest, h.margin) == |deep|
    ensures StripIssue([h] + (deep + rest), issue, ids).changed
       <==> StripBlock(h, deep, ids).changed || StripIssue(rest, issue, ids).changed
  {
    assert ([h] + (deep + rest))[1..] == deep + rest;
    assert (deep + rest)[..|deep|] == deep && (deep + rest)[|deep|..] == rest;
  }

  /** A block that keeps what it kept, and has more lines behind that. */
  lemma BlockPast(h: Line, kept: seq<Line>, more: seq<Line>, ids: set<string>)
    requires AnyContent(kept) && NoneCleared(kept, ids)
    ensures StripBlock(h, kept + more, ids).changed <==> !NoneCleared(more, ids)
  {
    UnclearedConcat(kept, more, ids);
    UnclearedSame(kept, ids);
    UnclearedSame(more, ids);
    ContentConcat(kept, Uncleared(more, ids));
  }

  /** What a header that stays leaves behind. */
  lemma KeptTurn(body: seq<Line>, issue: int, ids: set<string>) returns (kept: seq<Line>)
    requires body != [] && body[0].kind == Header(issue) && StripTurn(body, issue, ids).edit.lines != []
    ensures StripTurn(body, issue, ids).edit.lines == [body[0]] + kept
    ensures AnyContent(kept) && NoneEnds(kept, body[0].margin) && NoneCleared(kept, ids)
  {
    var h := body[0];
    var sub := body[1..][..DeepCount(body[1..], h.margin)];
    kept := Uncleared(sub, ids);
    UnclearedMembers(sub, ids);
    DeepCountFences(body[1..], h.margin);
    forall l | l in kept ensures !Ends(l, h.margin) {
      assert l in sub;
    }
  }

  lemma DeeperStill(ls: seq<Line>, margin: nat, wider: nat)
    requires NoneEnds(ls, wider) && margin <= wider
    ensures NoneEnds(ls, margin)
  {
    forall l | l in ls ensures !Ends(l, margin) {
      assert !Ends(l, wider);
    }
  }

  /** A header that stays. */
  lemma StableKept(body: seq<Line>, issue: int, ids: set<string>, open: Option<nat>)
    requires Measured(body) && body != [] && body[0].kind == Header(issue)
    requires StripTurn(body, issue, ids).edit.lines != []
    ensures var t := StripTurn(body, issue, ids);
            var inside := open.Some? && !Ends(body[0], open.value);
            var later := StripIssue(t.rest, issue, ids).lines;
            Stable(t.edit.lines + later, issue, ids, open)
            <==> Stable(later, issue, ids, if inside then open else Some(body[0].margin))
  {
    var h, t := body[0], StripTurn(body, issue, ids);
    var later := StripIssue(t.rest, issue, ids).lines;
    var kept := KeptTurn(body, issue, ids);
    assert t.edit.lines + later == [h] + (kept + later);
    if open.Some? && !Ends(h, open.value) {
      assert h in body;
      StableCons(h, kept + later, issue, ids, open.value);
      DeeperStill(kept, open.value, h.margin);
      StableAfter(kept, later, issue, ids, open.value);
    } else {
      if open.Some? {
        StableOut(h, kept + later, issue, ids, open.value);
      }
      StableHeader(h, kept, later, issue, ids);
    }
  }

  lemma StableLine(l: Line, later: seq<Line>, issue: int, ids: set<string>, open: Option<nat>)
    requires l.kind != Header(issue)
    ensures var inside := open.Some? && !Ends(l, open.value);
            Stable([l] + later, issue, ids, open)
            <==> !(inside && IsCleared(l, ids)) && Stable(later, issue, ids, if inside then open else None)
  {
    assert ([l] + later)[1..] == later;
    if open.Some? && !Ends(l, open.value) {
      StableCons(l, later, issue, ids, open.value);
    } else if open.Some? {
      StableOut(l, later, issue, ids, open.value);
    }
  }

  /** A second pass finds something to do exactly when the first one exposes something. */
  lemma {:induction false} StableUnlessExposed(body: seq<Line>, issue: int, ids: set<string>, open: Option<nat>)
    requires Measured(body)
    ensures Stable(StripIssue(body, issue, ids).lines, issue, ids, open) <==> !Exposes(body, issue, ids, open)
    decreases |body|
  {
    if body != [] {
      var l, t := body[0], StripTurn(body, issue, ids);
      var inside := open.Some? && !Ends(l, open.value);
      var later := StripIssue(t.rest, issue, ids).lines;
      StripTurnIsSubsequence(body, issue, ids);
      assert Measured(t.rest);
      if l.kind != Header(issue) {
        StableLine(l, later, issue, ids, open);
        StableUnlessExposed(t.rest, issue, ids, if inside then open else None);
      } else if t.edit.lines == [] {
        assert [] + later == later;
        StableUnlessExposed(t.rest, issue, ids, open);
      } else {
        StableKept(body, issue, ids, open);
        StableUnlessExposed(t.rest, issue, ids, if inside then open else Some(l.margin));
      }
    }
  }

  lemma {:induction false} SubsequenceMembers(xs: seq<Line>, ys: seq<Line>)
    requires Subsequence(xs, ys)
    ensures forall x :: x in xs ==> x in ys
    decreases |ys|
  {
    if xs != [] {
      if xs[0] == ys[0] && Subsequence(xs[1..], ys[1..]) {
        SubsequenceMembers(xs[1..], ys[1..]);
        assert xs == [xs[0]] + xs[1..];
      } else {
        SubsequenceMembers(xs, ys[1..]);
      }
    }
  }

  lemma {:induction false} ClearKeepsFence(ls: seq<Line>, issue: int, ids: set<string>)
    requires Fenced(ls, 0)
    ensures Fenced(ClearBlocks(ls, issue, ids).lines, 0)
    decreases |ls|
  {
    if ls != [] && ls[0].kind == RegistryKey {
      DeepCountFences(ls[1..], 0);
      ClearKeepsFence(ClearTurn(ls, issue, ids).rest, issue, ids);
    }
  }

  /** Does the edit of any block of the text expose something? */
  predicate ExposesIn(ls: seq<Line>, issue: int, ids: set<string>)
    decreases |ls|
  {
    if ls == [] then false
    else
      var rest := ClearTurn(ls, issue, ids).rest;
      (ls[0].kind == RegistryKey && Exposes(ls[1..][..DeepCount(ls[1..], 0)], issue, ids, None))
      || ExposesIn(rest, issue, ids)
  }

  lemma {:induction false} NoContentNoChange(ls: seq<Line>, issue: int, ids: set<string>)
    requires !AnyContent(ls)
    ensures StripIssue(ls, issue, ids) == Edit(ls, false)
  {
    if ls != [] {
      NoContentNoChange(ls[1..], issue, ids);
    }
  }

  /** A block that stayed, read once more. */
  lemma ClearKeptBlock(key: Line, body: seq<Line>, rest: seq<Line>, issue: int, ids: set<string>)
    requires key.kind == RegistryKey && AnyContent(body) && NoneEnds(body, 0) && Fenced(rest, 0)
    ensures ClearBlocks([key] + (body + rest), issue, ids).changed
       <==> StripIssue(body, issue, ids).changed || ClearBlocks(rest, issue, ids).changed
  {
    var all := [key] + (body + rest);
    assert all[1..] == body + rest;
    DeepCountOf(body, rest, 0);
    var b := StripIssue(body, issue, ids);
    if !b.changed {
      StripIsSubsequence(body, issue, ids);
    }
  }

  /** The lines of one block after its first pass. */
  lemma StripKeepsDeep(ls: seq<Line>, issue: int, ids: set<string>)
    ensures NoneEnds(StripIssue(ls[..DeepCount(ls, 0)], issue, ids).lines, 0)
    ensures forall l :: l in ls[..DeepCount(ls, 0)] ==> l in ls
  {
    var body := ls[..DeepCount(ls, 0)];
    DeepCountFences(ls, 0);
    StripIsSubsequence(body, issue, ids);
    SubsequenceMembers(StripIssue(body, issue, ids).lines, body);
    forall l | l in StripIssue(body, issue, ids).lines ensures !Ends(l, 0) {
      assert l in body;
    }
  }

  /** One block, its body cleared once, in front of text cleared once. */
  lemma BlockTwice(key: Line, body: seq<Line>, later: seq<Line>, issue: int, ids: set<string>)
    requires key.kind == RegistryKey && Measured(body) && Fenced(later, 0)
    requires NoneEnds(StripIssue(body, issue, ids).lines, 0)
    ensures ClearBlocks(StripRegistry(key, body, issue, ids).lines + later, issue, ids).changed
       <==> Exposes(body, issue, ids, None) || ClearBlocks(later, issue, ids).changed
  {
    var b := StripIssue(body, issue, ids).lines;
    StableUnlessExposed(body, issue, ids, None);
    if AnyContent(b) {
      assert [key] + b + later == [key] + (b + later);
      ClearKeptBlock(key, b, later, issue, ids);
    } else {
      assert [] + later == later;
      NoContentNoChange(b, issue, ids);
    }
  }

  lemma ClearKeyTwice(ls: seq<Line>, issue: int, ids: set<string>)
    requires Measured(ls) && ls != [] && ls[0].kind == RegistryKey
    ensures var t := ClearTurn(ls, issue, ids);
            var later := ClearBlocks(t.rest, issue, ids).lines;
            ClearBlocks(t.edit.lines + later, issue, ids).changed
            <==> Exposes(ls[1..][..DeepCount(ls[1..], 0)], issue, ids, None) || ClearBlocks(later, issue, ids).changed
  {
    var rest := ClearTurn(ls, issue, ids).rest;
    DeepCountFences(ls[1..], 0);
    StripKeepsDeep(ls[1..], issue, ids);
    ClearKeepsFence(rest, issue, ids);
    BlockTwice(ls[0], ls[1..][..DeepCount(ls[1..], 0)], ClearBlocks(rest, issue, ids).lines, issue, ids);
  }

  lemma {:induction false} ClearTwice(ls: seq<Line>, issue: int, ids: set<string>)
    requires Measured(ls)
    ensures ClearBlocks(ClearBlocks(ls, issue, ids).lines, issue, ids).changed <==> ExposesIn(ls, issue, ids)
    decreases |ls|
  {
    if ls != [] {
      var t := ClearTurn(ls, issue, ids);
      var later := ClearBlocks(t.rest, issue, ids).lines;
      ClearTurnIsSubsequence(ls, issue, ids);
      assert Measured(t.rest);
      ClearTwice(t.rest, issue, ids);
      if ls[0].kind == RegistryKey {
        ClearKeyTwice(ls, issue, ids);
      } else {
        assert ([ls[0]] + later)[1..] == later;
      }
    }
  }

  /** A second clearing has nothing to commit if and only if the first one exposes nothing. */
  lemma ClearAgainExactly(text: seq<Line>, issue: int, ids: set<string>)
    requires Measured(text)
    ensures Clear(Cleared(text, issue, ids), issue, ids) == None <==> ids == {} || !ExposesIn(text, issue, ids)
  {
    ClearTwice(text, issue, ids);
    ClearIsSubsequence(text, issue, ids);
  }

  /** With spaces only, a header that goes is followed by nothing deeper than itself. */
  lemma {:induction false} SpacesExposeNothing(body: seq<Line>, issue: int, ids: set<string>, open: Option<nat>)
    requires SpacesOnly(body) && (open.Some? ==> Fenced(body, open.value))
    ensures !Exposes(body, issue, ids, open)
    decreases |body|
  {
    if body != [] {
      var l, t := body[0], StripTurn(body, issue, ids);
      StripTurnIsSubsequence(body, issue, ids);
      assert SpacesOnly(t.rest);
      assert l in body;
      if l.kind != Header(issue) {
        SpacesExposeNothing(t.rest, issue, ids, None);
      } else {
        DeepCountFences(body[1..], l.margin);
        SpacesExposeNothing(t.rest, issue, ids, if t.edit.lines == [] then open else Some(l.margin));
      }
    }
  }

  lemma {:induction false} SpacesExposeNothingIn(ls: seq<Line>, issue: int, ids: set<string>)
    requires SpacesOnly(ls)
    ensures !ExposesIn(ls, issue, ids)
    decreases |ls|
  {
    if ls != [] {
      ClearTurnIsSubsequence(ls, issue, ids);
      assert SpacesOnly(ClearTurn(ls, issue, ids).rest);
      SpacesExposeNothingIn(ClearTurn(ls, issue, ids).rest, issue, ids);
      if ls[0].kind == RegistryKey {
        assert SpacesOnly(ls[1..][..DeepCount(ls[1..], 0)]);
        SpacesExposeNothing(ls[1..][..DeepCount(ls[1..], 0)], issue, ids, None);
      }
    }
  }

  /** Idempotence: on text indented by spaces only, a second clearing has nothing to commit. */
  lemma ClearAgainIsNone(text: seq<Line>, issue: int, ids: set<string>)
    requires SpacesOnly(text)
    ensures Clear(Cleared(text, issue, ids), issue, ids) == None
  {
    SpacesExposeNothingIn(text, issue, ids);
    ClearAgainExactly(text, issue, ids);
  }

  const KEY_LINE := Line(0, 0, RegistryKey, "expected_red:")
  const WIDE_HEADER := Line(2, 2, Header(1), "  1:")
  const OTHER_ITEM := Line(4, 4, Item("b"), "    - b")
  const TABBED_HEADER := Line(1, 5, Header(1), " \t\t\t\t1:")
  const CLEARED_ITEM := Line(4, 4, Item("a"), "    - a")
  const TABBED_BODY := [WIDE_HEADER, OTHER_ITEM, TABBED_HEADER, CLEARED_ITEM]

  /** The tabbed header goes: nothing hangs below it, as its margin is wider than the item's indent. */
  lemma TabbedHeaderGoes()
    ensures StripTurn([TABBED_HEADER, CLEARED_ITEM], 1, {"a"}) == Turn(Edit([], true), [CLEARED_ITEM])
  {
    var t, c := TABBED_HEADER, CLEARED_ITEM;
    assert [t, c][1..] == [c];
    assert DeepCount([c], 5) == 0 && [c][..0] == [] && [c][0..] == [c];
    assert StripBlock(t, [], {"a"}) == Edit([], true);
  }

  lemma WideHeaderStays()
    ensures var turn := StripTurn(TABBED_BODY, 1, {"a"}); turn.edit.lines != [] && turn.rest == [TABBED_HEADER, CLEARED_ITEM]
  {
    var w, o, t, c := WIDE_HEADER, OTHER_ITEM, TABBED_HEADER, CLEARED_ITEM;
    assert TABBED_BODY[1..] == [o, t, c] && [o, t, c][1..] == [t, c];
    assert "b"[0] != "a"[0];
    assert IsContent([o][0]) && Uncleared([o], {"a"}) == [o];
    assert DeepCount([t, c], 2) == 0 && DeepCount([o, t, c], 2) == 1 && [o, t, c][..1] == [o];
  }

  lemma TabsExpose()
    ensures Exposes(TABBED_BODY, 1, {"a"}, None)
  {
    WideHeaderStays();
    TabbedHeaderGoes();
    assert Exposes([CLEARED_ITEM], 1, {"a"}, Some(2));
    assert Exposes([TABBED_HEADER, CLEARED_ITEM], 1, {"a"}, Some(2));
  }

  /**
   With tabs a second clearing can reach further: a header whose margin is wider than its count
   of leading spaces fences off the lines below it only as long as it stands.
   */
  lemma TabsBreakIdempotence() returns (text: seq<Line>, ids: set<string>)
    ensures Measured(text) && Clear(Cleared(text, 1, ids), 1, ids) != None
  {
    text, ids := [KEY_LINE] + TABBED_BODY, {"a"};
    assert text[1..] == TABBED_BODY;
    assert TABBED_BODY + [] == TABBED_BODY;
    DeepCountOf(TABBED_BODY, [], 0);
    TabsExpose();
    ClearAgainExactly(text, 1, ids);
  }
}
