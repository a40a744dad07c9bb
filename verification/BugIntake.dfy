/**
 The bug-report printer and parser of `coord/bug_intake.py`.

 `MatchHere` is the heading pattern `^#{1,6}\s*(heading)\s*$`, with `\s` free to run over line
 ends.  `RoundTripExactly` says for which reports parsing undoes printing.
 */
module BugIntake {
  import opened Common
  import opened Text
  import opened Strings
  import opened HeadingScan

  datatype Field = Expected | Actual | Repro | Evidence

  datatype Report = Report(expected: string, actual: string, repro: string, evidence: string)

  function Heading(f: Field): string {
    match f
    case Expected => "Expected behaviour"
    case Actual => "Actual behaviour"
    case Repro => "Reproduction"
    case Evidence => "Evidence"
  }

  function ValueOf(r: Report, f: Field): string {
    match f
    case Expected => r.expected
    case Actual => r.actual
    case Repro => r.repro
    case Evidence => r.evidence
  }

  // ── the heading pattern ────────────────────────────────────────────────────

  function Lower(c: char): char {
    if 'A' <= c <= 'Z' then (c as int + 32) as char else c
  }

  /** Letters match whatever their case; `i` also matches the dotted capital and the dotless small one. */
  predicate SameLetter(c: char, h: char) {
    Lower(c) == Lower(h) || (Lower(h) == 'i' && (c as int == 0x130 || c as int == 0x131))
  }

  predicate Spells(s: string, h: string) {
    |h| <= |s| && forall k :: 0 <= k < |h| ==> SameLetter(s[k], h[k])
  }

  /** The same in plain letters: only then is the heading recognised after lower-casing. */
  predicate SpellsPlainly(s: string, h: string) {
    |h| <= |s| && forall k :: 0 <= k < |h| ==> Lower(s[k]) == Lower(h[k])
  }

  /** The alternatives in order; no heading starts another. */
  function HeadingAt(s: string): (f: Option<Field>)
    ensures f.Some? ==> |Heading(f.value)| <= |s|
  {
    if Spells(s, Heading(Expected)) then Some(Expected)
    else if Spells(s, Heading(Actual)) then Some(Actual)
    else if Spells(s, Heading(Repro)) then Some(Repro)
    else if Spells(s, Heading(Evidence)) then Some(Evidence)
    else None
  }

  function HashRun(s: string): (n: nat)
    ensures n <= |s|
  {
    if s == [] || s[0] != '#' then 0 else 1 + HashRun(s[1..])
  }

  /** Where the last line end stands. */
  function LastNewline(s: string): (i: Option<nat>)
    ensures i.Some? ==> i.value < |s|
  {
    if s == [] then None
    else if s[|s| - 1] == '\n' then Some(|s| - 1)
    else LastNewline(s[..|s| - 1])
  }

  /** `\s*$`: the longest run of white space that stops at a line end or at the end. */
  function LineEnd(s: string): (e: Option<nat>)
    ensures e.Some? ==> e.value <= SpaceRun(s)
  {
    var n := SpaceRun(s);
    if n == |s| then Some(n) else LastNewline(s[..n])
  }

  /** The heading and the white space behind it, at the start of `x`. */
  function MatchText(x: string): Option<Hit<Field>> {
    match HeadingAt(x)
    case None => None
    case Some(f) => HitOf(x, |Heading(f)|, if SpellsPlainly(x, Heading(f)) then Some(f) else None)
  }

  /** A heading of `r` characters, if only white space follows it up to a line end. */
  function HitOf(x: string, r: nat, key: Option<Field>): Option<Hit<Field>>
    requires r <= |x|
  {
    match LineEnd(x[r..])
    case None => None
    case Some(e) => Some(Hit(key, r, r + e))
  }

  function Shift(h: Option<Hit<Field>>, skip: nat): Option<Hit<Field>> {
    if h.Some? then Some(Hit(h.value.key, skip + h.value.heading, skip + h.value.end)) else None
  }

  /** The pattern at a line start. */
  function MatchHere(s: string): Option<Hit<Field>> {
    var n := HashRun(s);
    if n < 1 || n > 6 then None
    else Shift(MatchText(HeadingText(s)), |s| - |HeadingText(s)|)
  }

  /** What follows the hash signs and the white space behind them. */
  function HeadingText(s: string): (x: string)
    ensures |x| <= |s|
  {
    TrimLeft(s[HashRun(s)..])
  }

  // ── printing and parsing ───────────────────────────────────────────────────

  /** One `## ` section. */
  function Part(f: Field, value: string): string {
    "## " + (Heading(f) + ("\n\n" + value))
  }

  function FormatStripped(r: Report): string {
    Part(Expected, r.expected) + ("\n\n" + (Part(Actual, r.actual) + ("\n\n" + (Part(Repro, r.repro) + ("\n\n" +
    (Part(Evidence, r.evidence) + ("\n" + "")))))))
  }

  function Stripped(r: Report): Report {
    Report(Strip(r.expected), Strip(r.actual), Strip(r.repro), Strip(r.evidence))
  }

  /** `format_bug_report` */
  function Format(r: Report): string {
    FormatStripped(Stripped(r))
  }

  /** The last section with this heading counts; "" if there is none. */
  function LastOf(ss: seq<Section<Field>>, f: Field): string {
    if ss == [] then ""
    else if ss[|ss| - 1].key == Some(f) then ss[|ss| - 1].body
    else LastOf(ss[..|ss| - 1], f)
  }

  function ReportOf(ss: seq<Section<Field>>): Option<Report> {
    var r := Report(LastOf(ss, Expected), LastOf(ss, Actual), LastOf(ss, Repro), LastOf(ss, Evidence));
    if r.expected != "" && r.actual != "" && r.repro != "" && r.evidence != "" then Some(r) else None
  }

  // ── the pattern keeps its promises ─────────────────────────────────────────

  lemma HeadingLetters(f: Field)
    ensures forall k :: 0 <= k < |Heading(f)| ==> Heading(f)[k] != '\n' && Heading(f)[k] != '#'
    ensures |Heading(f)| > 0 && !IsSpace(Heading(f)[0])
  {
  }

  lemma {:induction false} HashRunJoin(u: string, t: string)
    requires u != "" && Joint(u, t)
    ensures HashRun(u + t) == HashRun(u)
  {
    if u[0] == '#' {
      assert (u + t)[1..] == u[1..] + t;
      if u[1..] == "" {
        assert u[1..] + t == t;
      } else {
        HashRunJoin(u[1..], t);
      }
    }
  }

  lemma {:induction false} SpaceRunJoin(u: string, t: string)
    ensures SpaceRun(u + t) == if SpaceRun(u) < |u| then SpaceRun(u) else |u| + SpaceRun(t)
  {
    if u == "" {
      assert u + t == t;
    } else if IsSpace(u[0]) {
      assert (u + t)[1..] == u[1..] + t;
      SpaceRunJoin(u[1..], t);
    }
  }

  lemma {:induction false} LastNewlineExists(s: string, k: nat)
    requires k < |s| && s[k] == '\n'
    ensures LastNewline(s).Some?
    decreases |s|
  {
    if s[|s| - 1] != '\n' {
      LastNewlineExists(s[..|s| - 1], k);
    }
  }

  lemma LineEndJoin(u: string, t: string)
    requires NewlineBetween(u, t)
    ensures LineEnd(u + t).Some? <==> LineEnd(u).Some?
  {
    SpaceRunJoin(u, t);
    var n := SpaceRun(u + t);
    if SpaceRun(u) < |u| {
      assert (u + t)[..n] == u[..n];
    } else if n < |u + t| {
      var w := (u + t)[..n];
      if u != "" && u[|u| - 1] == '\n' {
        LastNewlineExists(w, |u| - 1);
      } else {
        assert t[0] == '\n';
        LastNewlineExists(w, |u|);
      }
    }
  }

  lemma SpellsJoin(u: string, t: string, f: Field)
    requires NewlineBetween(u, t)
    ensures Spells(u + t, Heading(f)) <==> Spells(u, Heading(f))
    ensures SpellsPlainly(u + t, Heading(f)) <==> SpellsPlainly(u, Heading(f))
  {
    var h, n := Heading(f), |u|;
    HeadingLetters(f);
    if n < |h| <= |u + t| {
      if t != "" && t[0] == '\n' {
        assert (u + t)[n] == '\n' && !SameLetter('\n', h[n]) && Lower('\n') != Lower(h[n]);
      } else {
        assert (u + t)[n - 1] == '\n' && !SameLetter('\n', h[n - 1]) && Lower('\n') != Lower(h[n - 1]);
      }
    }
  }

  lemma HeadingAtJoin(u: string, t: string)
    requires NewlineBetween(u, t)
    ensures HeadingAt(u + t) == HeadingAt(u)
  {
    SpellsJoin(u, t, Expected);
    SpellsJoin(u, t, Actual);
    SpellsJoin(u, t, Repro);
    SpellsJoin(u, t, Evidence);
  }

  lemma NoHeadingAt(s: string)
    requires s == "" || s[0] == '#'
    ensures HeadingAt(s) == None
  {
    HeadingLetters(Expected);
    HeadingLetters(Actual);
    HeadingLetters(Repro);
    HeadingLetters(Evidence);
  }

  predicate Alike(g: Option<Hit<Field>>, h: Option<Hit<Field>>) {
    (g.Some? <==> h.Some?) && (g.Some? ==> g.value.key == h.value.key && g.value.heading == h.value.heading)
  }

  lemma AfterHeadingJoin(x: string, t: string, f: Field)
    requires NewlineBetween(x, t) && Spells(x, Heading(f))
    ensures var r := |Heading(f)|; LineEnd((x + t)[r..]).Some? <==> LineEnd(x[r..]).Some?
  {
    var r := |Heading(f)|;
    HeadingLetters(f);
    assert (x + t)[r..] == x[r..] + t;
    assert SameLetter(x[r - 1], Heading(f)[r - 1]);
    LineEndJoin(x[r..], t);
  }

  lemma SpelledHeading(x: string)
    ensures HeadingAt(x).Some? ==> Spells(x, Heading(HeadingAt(x).value))
  {
  }

  lemma MatchTextJoin(x: string, t: string)
    requires NewlineBetween(x, t)
    ensures Alike(MatchText(x + t), MatchText(x))
  {
    HeadingAtJoin(x, t);
    SpelledHeading(x);
    if HeadingAt(x).Some? {
      SpellsJoin(x, t, HeadingAt(x).value);
      AfterHeadingJoin(x, t, HeadingAt(x).value);
    }
  }

  lemma {:induction false} TrimLeftJoin(v: string, t: string)
    ensures TrimLeft(v + t) == if TrimLeft(v) == "" then TrimLeft(t) else TrimLeft(v) + t
    ensures TrimLeft(v) != "" ==> v != "" && TrimLeft(v)[|TrimLeft(v)| - 1] == v[|v| - 1]
  {
    if v == "" {
      assert v + t == t;
    } else if IsSpace(v[0]) {
      assert (v + t)[1..] == v[1..] + t;
      TrimLeftJoin(v[1..], t);
    }
  }

  lemma {:induction false} TrimLeftHead(t: string)
    ensures TrimLeft(t) == t[SpaceRun(t)..]
  {
    if t != "" && IsSpace(t[0]) {
      TrimLeftHead(t[1..]);
      assert t[1..][SpaceRun(t[1..])..] == t[SpaceRun(t)..];
    }
  }

  predicate HashNext(t: string) {
    SpaceRun(t) < |t| ==> t[SpaceRun(t)] == '#'
  }

  /** The white space between the hash signs and the heading. */
  lemma BlankJoin(v: string, t: string)
    requires NewlineBetween(v, t) && HashNext(t)
    ensures Alike(MatchText(TrimLeft(v + t)), MatchText(TrimLeft(v)))
    ensures MatchText(TrimLeft(v)).Some? ==> |TrimLeft(v + t)| == |TrimLeft(v)| + |t|
  {
    TrimLeftJoin(v, t);
    var x := TrimLeft(v);
    if x == "" {
      TrimLeftHead(t);
      NoHeadingAt(TrimLeft(t));
      NoHeadingAt(x);
    } else {
      MatchTextJoin(x, t);
    }
  }

  /** A match starting in `u` is a match in `u + t`, and the other way round. */
  lemma MatchHereJoin(u: string, t: string)
    requires u != "" && Joint(u, t)
    ensures SameHit(MatchHere, u, t)
  {
    HashRunJoin(u, t);
    var n := HashRun(u);
    var v := u[n..];
    HashesOnly(u);
    assert (u + t)[n..] == v + t;
    BlankJoin(v, t);
  }

  lemma {:induction false} HashesOnly(u: string)
    ensures u != "" && HashRun(u) == |u| ==> u[|u| - 1] == '#'
    ensures HashRun(u) < |u| ==> u[HashRun(u)] != '#'
  {
    if u != "" && u[0] == '#' {
      HashesOnly(u[1..]);
    }
  }

  lemma LineEndSpaces(s: string)
    requires LineEnd(s).Some?
    ensures LineEnd(s).value <= |s| && AllSpace(s[..LineEnd(s).value])
  {
    SpaceRunIs(s);
    assert s[..LineEnd(s).value] == s[..SpaceRun(s)][..LineEnd(s).value];
  }

  lemma HeadingFits(x: string, f: Field, e: nat, key: Option<Field>)
    requires Spells(x, Heading(f)) && |Heading(f)| + e <= |x| && AllSpace(x[|Heading(f)|..][..e])
    ensures var r := |Heading(f)|; Fits(Some(Hit(key, r, r + e)), x)
  {
    var r := |Heading(f)|;
    HeadingLetters(f);
    assert SameLetter(x[r - 1], Heading(f)[r - 1]);
    assert x[r..r + e] == x[r..][..e];
  }

  lemma HitFits(x: string, f: Field, key: Option<Field>)
    requires Spells(x, Heading(f)) && LineEnd(x[|Heading(f)|..]).Some?
    ensures var r := |Heading(f)|; Fits(Some(Hit(key, r, r + LineEnd(x[r..]).value)), x)
  {
    var rest := x[|Heading(f)|..];
    LineEndSpaces(rest);
    HeadingFits(x, f, LineEnd(rest).value, key);
  }

  lemma MatchTextUnfolds(x: string) returns (f: Field, key: Option<Field>)
    requires MatchText(x).Some?
    ensures Spells(x, Heading(f)) && LineEnd(x[|Heading(f)|..]).Some?
    ensures var r := |Heading(f)|; MatchText(x) == Some(Hit(key, r, r + LineEnd(x[r..]).value))
  {
    f, key := HeadingAt(x).value, MatchText(x).value.key;
    SpelledHeading(x);
  }

  lemma MatchTextFits(x: string)
    ensures Fits(MatchText(x), x)
  {
    if MatchText(x).Some? {
      var f, key := MatchTextUnfolds(x);
      HitFits(x, f, key);
    }
  }

  lemma ShiftFits(s: string, pre: string, x: string, h: Option<Hit<Field>>)
    requires s == pre + x && Fits(h, x)
    ensures Fits(Shift(h, |s| - |x|), s)
  {
    if h.Some? {
      assert s[|pre| + h.value.heading..|pre| + h.value.end] == x[h.value.heading..h.value.end];
    }
  }

  lemma TextSplits(s: string) returns (pre: string)
    ensures s == pre + HeadingText(s)
  {
    var w := s[HashRun(s)..];
    TrimLeftHead(w);
    pre := s[..HashRun(s) + SpaceRun(w)];
  }

  lemma TextFits(s: string)
    ensures Fits(Shift(MatchText(HeadingText(s)), |s| - |HeadingText(s)|), s)
  {
    var pre := TextSplits(s);
    MatchTextFits(HeadingText(s));
    ShiftFits(s, pre, HeadingText(s), MatchText(HeadingText(s)));
  }

  lemma MatchHereFits(s: string)
    ensures Fits(MatchHere(s), s)
  {
    TextFits(s);
  }

  lemma PatternIsGood()
    ensures WellFormed(MatchHere) && LineBound(MatchHere)
  {
    forall s ensures Fits(MatchHere(s), s) {
      MatchHereFits(s);
    }
    forall u: string, t: string | u != "" && Joint(u, t) ensures SameHit(MatchHere, u, t) {
      MatchHereJoin(u, t);
    }
  }

  // ── what a text says ───────────────────────────────────────────────────────

  function Said(s: string): seq<Section<Field>> {
    PatternIsGood();
    Sections(MatchHere, s, true)
  }

  /** `parse_bug_report`, as a function of what the text says. */
  function Parse(body: string): Option<Report> {
    ReportOf(Said(body))
  }

  /** Every heading is filed under its last section. */
  ghost predicate Files(byHeading: map<Field, string>, ss: seq<Section<Field>>) {
    forall f :: (if f in byHeading then byHeading[f] else "") == LastOf(ss, f)
  }

  lemma FileOne(before: map<Field, string>, ss: seq<Section<Field>>, i: nat)
    requires i < |ss| && Files(before, ss[..i])
    ensures Files(if ss[i].key.Some? then before[ss[i].key.value := ss[i].body] else before, ss[..i + 1])
  {
    assert ss[..i + 1][..i] == ss[..i];
  }

  method FileBodies(body: string, matches: seq<Match<Field>>) returns (byHeading: map<Field, string>)
    requires InOrder(body, matches)
    ensures Files(byHeading, SectionsBetween(body, matches))
  {
    byHeading := map[];
    ghost var ss := SectionsBetween(body, matches);
    for i := 0 to |matches|
      invariant i > 0 ==> |ss| == |matches|
      invariant i <= |ss| && Files(byHeading, ss[..i])
    {
      SectionAt(body, matches, i);
      FileOne(byHeading, ss, i);
      var start := matches[i].end;
      var end := if i + 1 < |matches| then matches[i + 1].start else |body|;
      if matches[i].key.Some? {
        byHeading := byHeading[matches[i].key.value := Strip(body[start..end])];
      }
    }
    assert ss[..|ss|] == ss;
  }

  /** `parse_bug_report` */
  method ParseBugReport(body: string) returns (r: Option<Report>)
    ensures r == Parse(body)
  {
    PatternIsGood();
    var matches := FindAll(MatchHere, body, true, 0);
    FindAllIsSections(MatchHere, body, "", body, true);
    if matches == [] {
      return None;
    }
    var byHeading := FileBodies(body, matches);
    r := Collect(byHeading, Said(body));
  }

  method Collect(byHeading: map<Field, string>, ghost ss: seq<Section<Field>>) returns (r: Option<Report>)
    requires Files(byHeading, ss)
    ensures r == ReportOf(ss)
  {
    var values: seq<string> := [];
    var fields := [Expected, Actual, Repro, Evidence];
    for k := 0 to 4
      invariant |values| == k
      invariant forall j :: 0 <= j < k ==> values[j] == LastOf(ss, fields[j]) != ""
    {
      if fields[k] !in byHeading || byHeading[fields[k]] == "" {
        assert LastOf(ss, fields[k]) == "";
        return None;
      }
      values := values + [byHeading[fields[k]]];
    }
    return Some(Report(values[0], values[1], values[2], values[3]));
  }

  // ── printing, then parsing ─────────────────────────────────────────────────

  lemma HeadingAtItself(f: Field, x: string)
    ensures HeadingAt(Heading(f) + x) == Some(f) && SpellsPlainly(Heading(f) + x, Heading(f))
  {
    assert Spells(Heading(f) + x, Heading(f));
    var s := Heading(f) + x;
    match f
    case Expected =>
    case Actual => assert !SameLetter(s[0], Heading(Expected)[0]);
    case Repro => assert !SameLetter(s[0], Heading(Expected)[0]) && !SameLetter(s[0], Heading(Actual)[0]);
    case Evidence =>
      assert !SameLetter(s[1], Heading(Expected)[1]) && !SameLetter(s[0], Heading(Actual)[0]);
      assert !SameLetter(s[0], Heading(Repro)[0]);
  }

  lemma MatchTextOfHeading(f: Field, x: string)
    requires x != "" && x[0] == '\n'
    ensures var h := MatchText(Heading(f) + x); h.Some? && h.value.key == Some(f) && h.value.heading == |Heading(f)|
  {
    HeadingAtItself(f, x);
    assert (Heading(f) + x)[|Heading(f)|..] == x;
    if SpaceRun(x) < |x| {
      LastNewlineExists(x[..SpaceRun(x)], 0);
    }
  }

  /** A printed heading is a match, and its text follows after a blank line. */
  lemma MatchOfPart(f: Field, x: string)
    requires x != "" && x[0] == '\n'
    ensures var s := "## " + (Heading(f) + x);
            var h := MatchHere(s);
            h.Some? && h.value.key == Some(f) && h.value.heading <= |s| && s[h.value.heading..] == x
  {
    var t := Heading(f) + x;
    var s := "## " + t;
    HeadingLetters(f);
    assert s[1..][1..] == " " + t;
    assert s[0] == '#' && s[1..][0] == '#' && (" " + t)[0] == ' ';
    assert HashRun(" " + t) == 0;
    assert HashRun(s[1..]) == 1;
    assert HashRun(s) == 2 && s[2..] == " " + t;
    assert (" " + t)[1..] == t && t[0] == Heading(f)[0];
    assert TrimLeft(" " + t) == TrimLeft(t) == t;
    assert HeadingText(s) == t;
    MatchTextOfHeading(f, x);
    assert s[3 + |Heading(f)|..] == x;
  }

  /** What a section says: its heading with the text in front of the first heading inside, and those. */
  function PartSays(f: Field, value: string): seq<Section<Field>> {
    [Section(Some(f), Lead(MatchHere, value, true))] + Said(value)
  }

  lemma PartShape(f: Field, value: string, t: string)
    ensures Part(f, value) + t == "## " + (Heading(f) + ("\n\n" + (value + t)))
  {
    assert ("\n\n" + value) + t == "\n\n" + (value + t);
    assert (Heading(f) + ("\n\n" + value)) + t == Heading(f) + ("\n\n" + (value + t));
  }

  lemma BlankLineFirst(rest: string)
    ensures WellFormed(MatchHere)
    ensures Sections(MatchHere, "\n\n" + rest, false) == Said(rest)
    ensures Lead(MatchHere, "\n\n" + rest, false) == Lead(MatchHere, rest, true)
  {
    PatternIsGood();
    SectionsSkip(MatchHere, "\n\n", rest, false);
  }

  lemma SectionsOfHeading(s: string, x: string, f: Field)
    requires s != "" && MatchHere(s).Some? && MatchHere(s).value.key == Some(f)
    requires MatchHere(s).value.heading <= |s| && s[MatchHere(s).value.heading..] == x
    ensures WellFormed(MatchHere)
    ensures Said(s) == [Section(Some(f), Lead(MatchHere, x, false))] + Sections(MatchHere, x, false)
  {
    PatternIsGood();
    FirstOfHeading(MatchHere, s);
    assert Fits(MatchHere(s), s);
    SectionsAt(MatchHere, s, true, "", s);
  }

  lemma HeadingSays(f: Field, rest: string, x: string, s: string)
    requires x == "\n\n" + rest && s == "## " + (Heading(f) + x)
    ensures MatchHere(s).Some?
    ensures Said(s) == [Section(Some(f), Lead(MatchHere, rest, true))] + Said(rest)
  {
    MatchOfPart(f, x);
    SectionsOfHeading(s, x, f);
    BlankLineFirst(rest);
  }

  lemma PartThenTail(f: Field, value: string, pad: string, t: string)
    requires Tail(MatchHere, pad, t)
    ensures Said(Part(f, value) + (pad + t)) == PartSays(f, value) + Said(t)
    ensures MatchHere(Part(f, value) + (pad + t)).Some?
  {
    PatternIsGood();
    PartShape(f, value, pad + t);
    HeadingSays(f, value + (pad + t), "\n\n" + (value + (pad + t)), Part(f, value) + (pad + t));
    SectionsJoin(MatchHere, value, pad, t, true);
    ConsJoin(Section(Some(f), Lead(MatchHere, value, true)), Said(value), Said(t));
  }

  /** A printed report says what its four sections say. */
  lemma FormatSays(r: Report)
    ensures Said(FormatStripped(r))
         == PartSays(Expected, r.expected) + (PartSays(Actual, r.actual) +
            (PartSays(Repro, r.repro) + PartSays(Evidence, r.evidence)))
  {
    PartThenTail(Evidence, r.evidence, "\n", "");
    var d := Part(Evidence, r.evidence) + ("\n" + "");
    assert Said("") == [] && PartSays(Evidence, r.evidence) + [] == PartSays(Evidence, r.evidence);
    PartThenTail(Repro, r.repro, "\n\n", d);
    var c := Part(Repro, r.repro) + ("\n\n" + d);
    PartThenTail(Actual, r.actual, "\n\n", c);
    var b := Part(Actual, r.actual) + ("\n\n" + c);
    PartThenTail(Expected, r.expected, "\n\n", b);
  }

  // ── exactly which reports round-trip ───────────────────────────────────────

  /** A field that is not empty and contains no heading. */
  predicate Clean(value: string) {
    value != "" && First(MatchHere, value, true) == Nowhere
  }

  predicate AllClean(r: Report) {
    Clean(r.expected) && Clean(r.actual) && Clean(r.repro) && Clean(r.evidence)
  }

  predicate HasKey(ss: seq<Section<Field>>, f: Field) {
    exists i :: 0 <= i < |ss| && ss[i].key == Some(f)
  }

  lemma {:induction false} LastOfConcat(a: seq<Section<Field>>, b: seq<Section<Field>>, f: Field)
    ensures LastOf(a + b, f) == if HasKey(b, f) then LastOf(b, f) else LastOf(a, f)
    decreases |b|
  {
    if b == [] {
      assert a + b == a;
    } else {
      var last := |b| - 1;
      assert (a + b)[..|a + b| - 1] == a + b[..last];
      LastOfConcat(a, b[..last], f);
      if b[last].key != Some(f) {
        assert HasKey(b, f) <==> HasKey(b[..last], f);
      }
    }
  }

  lemma CleanPartSays(f: Field, value: string)
    requires Clean(value) && Strip(value) == value
    ensures PartSays(f, value) == [Section(Some(f), value)]
  {
    PatternIsGood();
    assert Said(value) == [];
  }

  lemma CleanRoundTrip(r: Report)
    requires AllClean(r) && Stripped(r) == r
    ensures Parse(FormatStripped(r)) == Some(r)
  {
    FormatSays(r);
    CleanPartSays(Expected, r.expected);
    CleanPartSays(Actual, r.actual);
    CleanPartSays(Repro, r.repro);
    CleanPartSays(Evidence, r.evidence);
    FourSections(r);
  }

  lemma FourSections(r: Report)
    requires r.expected != "" && r.actual != "" && r.repro != "" && r.evidence != ""
    ensures ReportOf([Section(Some(Expected), r.expected)] + ([Section(Some(Actual), r.actual)] +
                     ([Section(Some(Repro), r.repro)] + [Section(Some(Evidence), r.evidence)]))) == Some(r)
  {
    var e, a, p, v := Section(Some(Expected), r.expected), Section(Some(Actual), r.actual),
                      Section(Some(Repro), r.repro), Section(Some(Evidence), r.evidence);
    var one, two, three, four := [e], [e, a], [e, a, p], [e, a, p, v];
    assert [e] + ([a] + ([p] + [v])) == four;
    assert four[..3] == three && three[..2] == two && two[..1] == one;
    assert LastOf(one, Expected) == LastOf(two, Expected) == LastOf(three, Expected) == LastOf(four, Expected) == r.expected;
    assert LastOf(two, Actual) == LastOf(three, Actual) == LastOf(four, Actual) == r.actual;
    assert LastOf(three, Repro) == LastOf(four, Repro) == r.repro;
    assert LastOf(four, Evidence) == r.evidence;
  }

  lemma {:induction false} LastOfIsThere(ss: seq<Section<Field>>, f: Field)
    requires LastOf(ss, f) != ""
    ensures Section(Some(f), LastOf(ss, f)) in ss
  {
    if ss[|ss| - 1].key != Some(f) {
      LastOfIsThere(ss[..|ss| - 1], f);
    }
  }

  function Size(r: Report): nat {
    |r.expected| + |r.actual| + |r.repro| + |r.evidence|
  }

  /** Where the value that is filed under a heading can come from. */
  lemma SectionComesFrom(r: Report, f: Field, body: string) returns (g: Field)
    requires Section(Some(f), body) in Said(FormatStripped(r))
    ensures (g == f && body == Lead(MatchHere, ValueOf(r, f), true)) || Section(Some(f), body) in Said(ValueOf(r, g))
  {
    FormatSays(r);
    var sec := Section(Some(f), body);
    if sec in PartSays(Expected, r.expected) {
      g := Expected;
    } else if sec in PartSays(Actual, r.actual) {
      g := Actual;
    } else if sec in PartSays(Repro, r.repro) {
      g := Repro;
    } else {
      g := Evidence;
    }
    assert sec in PartSays(g, ValueOf(r, g));
  }

  lemma BodyIsShorter(value: string, sec: Section<Field>)
    requires sec in Said(value)
    ensures |sec.body| < |value| && Said(value) != []
  {
    PatternIsGood();
    BodiesAreShorter(MatchHere, value, true);
  }

  /** A field with a heading in it can only be read back from a longer field with a heading in it. */
  lemma LongerField(r: Report, f: Field) returns (g: Field)
    requires Parse(FormatStripped(r)) == Some(r) && Said(ValueOf(r, f)) != []
    ensures Said(ValueOf(r, g)) != [] && |ValueOf(r, g)| > |ValueOf(r, f)|
  {
    var said := Said(FormatStripped(r));
    assert LastOf(said, f) == ValueOf(r, f) != "";
    LastOfIsThere(said, f);
    g := SectionComesFrom(r, f, ValueOf(r, f));
    PatternIsGood();
    BodiesAreShorter(MatchHere, ValueOf(r, f), true);
    BodyIsShorter(ValueOf(r, g), Section(Some(f), ValueOf(r, f)));
  }

  lemma {:induction false} NoFieldHasHeading(r: Report, f: Field)
    requires Parse(FormatStripped(r)) == Some(r)
    ensures Said(ValueOf(r, f)) == []
    decreases Size(r) - |ValueOf(r, f)|
  {
    if Said(ValueOf(r, f)) != [] {
      var g := LongerField(r, f);
      NoFieldHasHeading(r, g);
    }
  }

  lemma SaysNothing(value: string)
    ensures Said(value) == [] <==> First(MatchHere, value, true) == Nowhere
  {
    PatternIsGood();
  }

  lemma FieldIsClean(r: Report, f: Field)
    requires Parse(FormatStripped(r)) == Some(r)
    ensures Clean(ValueOf(r, f))
  {
    NothingFiledIsEmpty(r);
    NoFieldHasHeading(r, f);
    SaysNothing(ValueOf(r, f));
  }

  lemma RoundTripIsClean(r: Report)
    requires Parse(FormatStripped(r)) == Some(r)
    ensures AllClean(r)
  {
    FieldIsClean(r, Expected);
    FieldIsClean(r, Actual);
    FieldIsClean(r, Repro);
    FieldIsClean(r, Evidence);
  }

  lemma StrippedTwice(r: Report)
    ensures Stripped(Stripped(r)) == Stripped(r)
  {
    StripTwice(r.expected);
    StripTwice(r.actual);
    StripTwice(r.repro);
    StripTwice(r.evidence);
  }

  /**
   A report round-trips, field by field, if and only if every stripped field is non-empty and
   none contains a heading, whichever one.
   */
  lemma RoundTripExactly(r: Report)
    ensures Parse(Format(r)) == Some(Stripped(r)) <==> AllClean(Stripped(r))
  {
    StrippedTwice(r);
    if AllClean(Stripped(r)) {
      CleanRoundTrip(Stripped(r));
    }
    if Parse(Format(r)) == Some(Stripped(r)) {
      RoundTripIsClean(Stripped(r));
    }
  }

  lemma NothingFiledIsEmpty(r: Report)
    requires Parse(FormatStripped(r)) == Some(r)
    ensures r.expected != "" && r.actual != "" && r.repro != "" && r.evidence != ""
  {
  }

  /** Clean, said line by line: no line of the field starts a heading. */
  lemma CleanMeansNoHeadingLine(value: string)
    ensures First(MatchHere, value, true) == Nowhere <==>
            forall i :: 0 <= i < |value| && (i == 0 || value[i - 1] == '\n') ==> MatchHere(value[i..]) == None
  {
    NowhereMeansNoLine(MatchHere, value, true);
    assert value[0..] == value;
  }

  /** Prose that ends its line and contains no heading changes nothing in front of a report. */
  lemma ProseInFront(prose: string, body: string)
    requires EndsLine(prose) && First(MatchHere, prose, true) == Nowhere
    requires body != "" && body[0] == '#'
    ensures Parse(prose + body) == Parse(body)
  {
    PatternIsGood();
    SectionsBehind(MatchHere, prose, body);
  }

  lemma ProseInFrontOfReport(prose: string, r: Report)
    requires EndsLine(prose) && First(MatchHere, prose, true) == Nowhere
    ensures Parse(prose + Format(r)) == Parse(Format(r))
  {
    assert Format(r)[0] == '#';
    ProseInFront(prose, Format(r));
  }
}
