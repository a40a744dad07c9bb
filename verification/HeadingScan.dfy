/**
 Texts divided by headings, for any heading pattern that is decided by what follows a line start:
 where the headings are, what stands between them, and what happens when texts are put side by side.
 */
module HeadingScan {
  import opened Common
  import opened Text
  import opened Strings

  /** A match: its key, if the heading is a known one, where its heading text ends, and where the match ends. */
  datatype Hit<K> = Hit(key: Option<K>, heading: nat, end: nat)

  /** The pattern, tried at a line start. */
  type Pattern<!K> = string -> Option<Hit<K>>

  /** The heading text does not end in a line end, and only white space follows it in the match. */
  predicate Fits<K>(h: Option<Hit<K>>, s: string) {
    h.Some? ==>
      && 0 < h.value.heading <= h.value.end <= |s|
      && s[h.value.heading - 1] != '\n' && AllSpace(s[h.value.heading..h.value.end])
  }

  ghost predicate WellFormed<K(!new)>(m: Pattern<K>) {
    forall s {:trigger Fits(m(s), s)} :: Fits(m(s), s)
  }

  /** The first match: the text in front of it, and the text from it on. */
  datatype Found = Nowhere | At(before: string, rest: string)

  function First<K>(m: Pattern<K>, s: string, bol: bool): (f: Found)
    ensures f.At? ==> m(f.rest).Some? && |f.before| + |f.rest| == |s|
  {
    if s == [] then Nowhere
    else if bol && m(s).Some? then At("", s)
    else match First(m, s[1..], s[0] == '\n')
      case Nowhere => Nowhere
      case At(before, rest) => At([s[0]] + before, rest)
  }

  datatype Section<K> = Section(key: Option<K>, body: string)

  /** The text in front of the first heading, stripped. */
  function Lead<K>(m: Pattern<K>, s: string, bol: bool): string {
    var f := First(m, s, bol);
    Strip(if f.At? then f.before else s)
  }

  function AfterHeading<K>(m: Pattern<K>, s: string): string
    requires m(s).Some? && Fits(m(s), s)
  {
    s[m(s).value.heading..]
  }

  /** Every heading with the stripped text up to the next one. */
  function Sections<K(!new)>(m: Pattern<K>, s: string, bol: bool): seq<Section<K>>
    requires WellFormed(m)
    decreases |s|
  {
    match First(m, s, bol)
    case Nowhere => []
    case At(_, rest) =>
      assert Fits(m(rest), rest);
      var after := AfterHeading(m, rest);
      [Section(m(rest).value.key, Lead(m, after, false))] + Sections(m, after, false)
  }

  // ── what a pattern has to promise ──────────────────────────────────────────

  function SpaceRun(s: string): (n: nat)
    ensures n <= |s|
  {
    if s == [] || !IsSpace(s[0]) then 0 else 1 + SpaceRun(s[1..])
  }

  lemma {:induction false} SpaceRunIs(s: string)
    ensures AllSpace(s[..SpaceRun(s)])
    ensures SpaceRun(s) < |s| ==> !IsSpace(s[SpaceRun(s)])
  {
    if s != [] && IsSpace(s[0]) {
      SpaceRunIs(s[1..]);
      var n := SpaceRun(s[1..]);
      assert s[..n + 1] == [s[0]] + s[1..][..n];
    }
  }

  predicate NewlineBetween(u: string, t: string) {
    (u != "" && u[|u| - 1] == '\n') || (t != "" && t[0] == '\n')
  }

  /** What may follow a text without making or breaking a heading in it: a new line, then nothing or a hash sign. */
  predicate Joint(u: string, t: string) {
    NewlineBetween(u, t) && (SpaceRun(t) < |t| ==> t[SpaceRun(t)] == '#')
  }

  /** The pattern sees in `u + t` what it sees in `u`. */
  predicate SameHit<K(==)>(m: Pattern<K>, u: string, t: string) {
    && (m(u + t).Some? <==> m(u).Some?)
    && (m(u).Some? ==> m(u + t).value.key == m(u).value.key && m(u + t).value.heading == m(u).value.heading)
  }

  predicate NoHit<K>(m: Pattern<K>, s: string) {
    m(s) == None
  }

  /** Headings start with a hash sign and are whole lines. */
  ghost predicate LineBound<K(!new)>(m: Pattern<K>) {
    && (forall s {:trigger NoHit(m, s)} :: s == "" || s[0] != '#' ==> NoHit(m, s))
    && (forall u, t {:trigger SameHit(m, u, t)} :: u != "" && Joint(u, t) ==> SameHit(m, u, t))
  }

  // ── white space in front ───────────────────────────────────────────────────

  function Put(pad: string, f: Found): Found {
    if f.At? then At(pad + f.before, f.rest) else Nowhere
  }

  lemma HeadAndRest(s: string, f: Found)
    requires s != ""
    ensures Put([s[0]], Put(s[1..], f)) == Put(s, f)
  {
    assert f.At? ==> [s[0]] + (s[1..] + f.before) == s + f.before;
  }

  predicate EndsLine(s: string) {
    s != "" && s[|s| - 1] == '\n'
  }

  lemma {:induction false} FirstSkips<K(!new)>(m: Pattern<K>, pad: string, w: string, bol: bool)
    requires LineBound(m) && AllSpace(pad) && pad != ""
    ensures First(m, pad + w, bol) == Put(pad, First(m, w, EndsLine(pad)))
  {
    assert IsSpace(pad[0]);
    assert NoHit(m, pad + w);
    assert (pad + w)[1..] == pad[1..] + w;
    if pad[1..] == "" {
      assert pad[1..] + w == w && pad == [pad[0]];
    } else {
      FirstSkips(m, pad[1..], w, pad[0] == '\n');
      HeadAndRest(pad, First(m, w, EndsLine(pad)));
    }
  }

  /** Leading white space changes nothing in what a text says. */
  lemma SectionsSkip<K(!new)>(m: Pattern<K>, pad: string, w: string, bol: bool)
    requires WellFormed(m) && LineBound(m) && AllSpace(pad) && pad != ""
    ensures Sections(m, pad + w, bol) == Sections(m, w, EndsLine(pad))
    ensures Lead(m, pad + w, bol) == Lead(m, w, EndsLine(pad))
  {
    FirstSkips(m, pad, w, bol);
    var f := First(m, w, EndsLine(pad));
    var text := if f.At? then f.before else w;
    assert pad + text + "" == pad + text;
    StripDrops(pad, text, "");
  }

  // ── texts side by side ─────────────────────────────────────────────────────

  lemma FirstCons<K>(m: Pattern<K>, c: char, s: string, bol: bool)
    ensures First(m, [c] + s, bol)
         == if bol && m([c] + s).Some? then At("", [c] + s) else Put([c], First(m, s, c == '\n'))
  {
    assert ([c] + s)[1..] == s;
  }

  function Joined(u: string, f: Found, t: string, g: Found): Found {
    if f.At? then At(f.before, f.rest + t) else Put(u, g)
  }

  lemma {:induction false} FirstJoin<K(!new)>(m: Pattern<K>, u: string, t: string, bol: bool)
    requires LineBound(m) && u != "" && Joint(u, t)
    ensures First(m, u + t, bol) == Joined(u, First(m, u, bol), t, First(m, t, EndsLine(u)))
    decreases |u|
  {
    var c, v := u[0], u[1..];
    assert SameHit(m, u, t);
    assert u == [c] + v && u + t == [c] + (v + t);
    FirstCons(m, c, v, bol);
    FirstCons(m, c, v + t, bol);
    if v == "" {
      assert v + t == t;
    } else {
      FirstJoin(m, v, t, c == '\n');
      HeadAndRest(u, First(m, t, EndsLine(u)));
    }
  }

  /** A tail that is white space, or white space up to a heading on a new line. */
  predicate Tail<K>(m: Pattern<K>, pad: string, t: string) {
    AllSpace(pad) && pad != "" && pad[0] == '\n' && (t == "" || (EndsLine(pad) && m(t).Some?))
  }

  lemma TailIsJoint<K(!new)>(m: Pattern<K>, u: string, pad: string, t: string, bol: bool)
    requires LineBound(m) && Tail(m, pad, t)
    ensures u != "" ==> Joint(u, pad + t)
    ensures First(m, pad + t, bol) == if t == "" then Nowhere else At(pad, t)
  {
    FirstSkips(m, pad, t, bol);
    assert t != "" ==> !NoHit(m, t);
    SpaceRunOf(pad, t);
    assert pad + "" == pad;
  }

  lemma {:induction false} SpaceRunOf(pad: string, t: string)
    requires AllSpace(pad) && (t == "" || !IsSpace(t[0]))
    ensures SpaceRun(pad + t) == |pad|
  {
    if pad == "" {
      assert pad + t == t;
    } else {
      assert (pad + t)[1..] == pad[1..] + t;
      SpaceRunOf(pad[1..], t);
    }
  }

  /** What a text says is not changed by a tail, and the tail says what it says by itself. */
  lemma {:induction false} SectionsJoin<K(!new)>(m: Pattern<K>, u: string, pad: string, t: string, bol: bool)
    requires WellFormed(m) && LineBound(m) && Tail(m, pad, t)
    ensures Sections(m, u + (pad + t), bol) == Sections(m, u, bol) + Sections(m, t, true)
    ensures Lead(m, u + (pad + t), bol) == Lead(m, u, bol)
    decreases |u|
  {
    TailIsJoint(m, u, pad, t, bol);
    TailIsJoint(m, u, pad, t, EndsLine(u));
    if u == "" {
      assert u + (pad + t) == pad + t;
      NowhereJoin(m, u, pad, t, bol);
    } else {
      FirstJoin(m, u, pad + t, bol);
      assert t != "" ==> Put(u, At(pad, t)) == At(u + pad, t);
      match First(m, u, bol)
      case Nowhere => NowhereJoin(m, u, pad, t, bol);
      case At(before, rest) =>
        FirstSplits(m, u, bol);
        JointInside(before, rest, pad + t);
        HitJoin(m, rest, pad + t);
        SectionsJoin(m, AfterHeading(m, rest), pad, t, false);
        SectionsAt(m, u, bol, before, rest);
        SectionsAt(m, u + (pad + t), bol, before, rest + (pad + t));
        var after := AfterHeading(m, rest);
        ConsJoin(Section(m(rest).value.key, Lead(m, after, false)), Sections(m, after, false), Sections(m, t, true));
    }
  }

  lemma JointInside(before: string, rest: string, t: string)
    requires Joint(before + rest, t)
    ensures rest != "" ==> Joint(rest, t)
    ensures rest == "" && t != "" && t[0] == '\n' ==> Joint(rest, t)
  {
  }

  lemma {:induction false} FirstSplits<K>(m: Pattern<K>, s: string, bol: bool)
    ensures var f := First(m, s, bol); f.At? ==> s == f.before + f.rest
  {
    if s != "" && !(bol && m(s).Some?) {
      FirstSplits(m, s[1..], s[0] == '\n');
    }
  }

  /** A found heading, spelled out. */
  lemma SectionsAt<K(!new)>(m: Pattern<K>, s: string, bol: bool, before: string, rest: string)
    requires WellFormed(m) && First(m, s, bol) == At(before, rest) && Fits(m(rest), rest)
    ensures m(rest).Some?
    ensures var after := AfterHeading(m, rest);
            Sections(m, s, bol) == [Section(m(rest).value.key, Lead(m, after, false))] + Sections(m, after, false)
    ensures Lead(m, s, bol) == Strip(before)
  {
  }

  lemma ConsJoin<K>(x: Section<K>, a: seq<Section<K>>, b: seq<Section<K>>)
    ensures [x] + (a + b) == ([x] + a) + b
  {
  }

  lemma FirstOfHeading<K(!new)>(m: Pattern<K>, t: string)
    requires LineBound(m) && (t == "" || m(t).Some?)
    ensures First(m, t, true) == if t == "" then Nowhere else At("", t)
  {
  }

  lemma NowhereJoin<K(!new)>(m: Pattern<K>, u: string, pad: string, t: string, bol: bool)
    requires WellFormed(m) && LineBound(m) && Tail(m, pad, t) && First(m, u, bol) == Nowhere
    requires First(m, u + (pad + t), bol) == if t == "" then Nowhere else At(u + pad, t)
    ensures Sections(m, u + (pad + t), bol) == Sections(m, u, bol) + Sections(m, t, true)
    ensures Lead(m, u + (pad + t), bol) == Lead(m, u, bol)
  {
    FirstOfHeading(m, t);
    assert "" + u + pad == u + pad;
    assert t == "" ==> u + (pad + t) == u + pad;
    StripDrops("", u, pad);
  }

  lemma HitJoin<K(!new)>(m: Pattern<K>, rest: string, t: string)
    requires WellFormed(m) && LineBound(m) && m(rest).Some? && Joint(rest, t)
    ensures m(rest + t).Some? && m(rest + t).value.key == m(rest).value.key
    ensures Fits(m(rest), rest) && Fits(m(rest + t), rest + t)
    ensures AfterHeading(m, rest + t) == AfterHeading(m, rest) + t
  {
    assert rest != "" by {
      assert rest == "" ==> NoHit(m, rest);
    }
    assert SameHit(m, rest, t);
    assert Fits(m(rest), rest) && Fits(m(rest + t), rest + t);
    var h := m(rest).value.heading;
    assert (rest + t)[h..] == rest[h..] + t;
  }

  /** Text in front that ends a line and has no heading changes nothing. */
  lemma SectionsBehind<K(!new)>(m: Pattern<K>, prose: string, t: string)
    requires WellFormed(m) && LineBound(m) && EndsLine(prose) && First(m, prose, true) == Nowhere
    requires t != "" && t[0] == '#'
    ensures Sections(m, prose + t, true) == Sections(m, t, true)
  {
    FirstJoin(m, prose, t, true);
  }

  lemma {:induction false} BodiesAreShorter<K(!new)>(m: Pattern<K>, s: string, bol: bool)
    requires WellFormed(m)
    ensures forall i :: 0 <= i < |Sections(m, s, bol)| ==> |Sections(m, s, bol)[i].body| < |s|
    ensures |Lead(m, s, bol)| <= |s| && (Sections(m, s, bol) != [] ==> |Lead(m, s, bol)| < |s|)
    decreases |s|
  {
    var f := First(m, s, bol);
    if f.At? {
      assert Fits(m(f.rest), f.rest);
      BodiesAreShorter(m, AfterHeading(m, f.rest), false);
    }
  }

  /** No match from the start means: no line start has one. */
  lemma {:induction false} NowhereMeansNoLine<K>(m: Pattern<K>, s: string, bol: bool)
    ensures First(m, s, bol) == Nowhere <==>
            forall i :: 0 <= i < |s| && (if i == 0 then bol else s[i - 1] == '\n') ==> m(s[i..]) == None
  {
    if s != "" {
      var t := s[1..];
      NowhereMeansNoLine(m, t, s[0] == '\n');
      assert s[0..] == s;
      assert forall i :: 0 < i < |s| ==> s[i..] == t[i - 1..];
    }
  }

  // ── matches by position ────────────────────────────────────────────────────

  datatype Match<K> = Match(start: nat, end: nat, key: Option<K>)

  function MatchAt<K>(m: Pattern<K>, s: string, start: nat): Match<K>
    requires m(s).Some?
  {
    Match(start, start + m(s).value.end, m(s).value.key)
  }

  function AfterMatch<K>(m: Pattern<K>, s: string): string
    requires m(s).Some? && Fits(m(s), s)
  {
    s[m(s).value.end..]
  }

  predicate OnNewLine<K>(m: Pattern<K>, s: string)
    requires m(s).Some? && Fits(m(s), s)
  {
    s[m(s).value.end - 1] == '\n'
  }

  /** All matches from left to right, the next one searched from where the last one ended. */
  function FindAll<K(!new)>(m: Pattern<K>, s: string, bol: bool, offset: nat): seq<Match<K>>
    requires WellFormed(m)
    decreases |s|
  {
    match First(m, s, bol)
    case Nowhere => []
    case At(before, rest) =>
      assert Fits(m(rest), rest);
      var first := MatchAt(m, rest, offset + |before|);
      [first] + FindAll(m, AfterMatch(m, rest), OnNewLine(m, rest), first.end)
  }

  /** The stripped text from the end of the first match to the start of the second. */
  function BodyBetween<K>(body: string, ms: seq<Match<K>>): string
    requires ms != [] && InOrder(body, ms)
  {
    assert |ms| > 1 ==> InOrder(body, ms[1..]);
    Strip(body[ms[0].end..if |ms| > 1 then ms[1].start else |body|])
  }

  predicate InOrder<K>(body: string, ms: seq<Match<K>>) {
    ms == [] ||
    (ms[0].start <= ms[0].end <= |body| && (|ms| > 1 ==> ms[0].end <= ms[1].start) && InOrder(body, ms[1..]))
  }

  function SectionsBetween<K>(body: string, ms: seq<Match<K>>): seq<Section<K>>
    requires InOrder(body, ms)
  {
    if ms == [] then [] else [Section(ms[0].key, BodyBetween(body, ms))] + SectionsBetween(body, ms[1..])
  }

  /** After a match the search goes on at its end, though the section starts behind the heading text. */
  lemma FromTheEnd<K(!new)>(m: Pattern<K>, rest: string)
    requires WellFormed(m) && LineBound(m) && m(rest).Some? && Fits(m(rest), rest)
    ensures Sections(m, AfterHeading(m, rest), false) == Sections(m, AfterMatch(m, rest), OnNewLine(m, rest))
    ensures Lead(m, AfterHeading(m, rest), false) == Lead(m, AfterMatch(m, rest), OnNewLine(m, rest))
  {
    var h, e := m(rest).value.heading, m(rest).value.end;
    CutGap(rest, h, e);
    if h < e {
      SectionsSkip(m, rest[h..e], rest[e..], false);
    }
  }

  lemma CutGap(s: string, h: nat, e: nat)
    requires h <= e <= |s|
    ensures s[h..] == s[h..e] + s[e..]
    ensures h == e ==> s[h..] == s[e..]
    ensures h < e ==> s[h..e] != "" && (EndsLine(s[h..e]) <==> s[e - 1] == '\n')
  {
  }

  lemma InOrderCons<K>(body: string, first: Match<K>, ms: seq<Match<K>>)
    requires InOrder(body, ms) && first.start <= first.end <= |body| && (ms != [] ==> first.end <= ms[0].start)
    ensures InOrder(body, [first] + ms)
  {
    assert ([first] + ms)[1..] == ms;
  }

  lemma Between(body: string, pre: string, before: string, rest: string)
    requires body == pre + (before + rest)
    ensures body[|pre|..|pre| + |before|] == before
  {
  }

  lemma FindAllAt<K(!new)>(m: Pattern<K>, s: string, bol: bool, offset: nat, before: string, rest: string)
    requires WellFormed(m) && First(m, s, bol) == At(before, rest) && Fits(m(rest), rest)
    ensures var first := MatchAt(m, rest, offset + |before|);
            FindAll(m, s, bol, offset) == [first] + FindAll(m, AfterMatch(m, rest), OnNewLine(m, rest), first.end)
  {
  }

  lemma SectionsBetweenCons<K>(body: string, first: Match<K>, later: seq<Match<K>>)
    requires InOrder(body, [first] + later) && InOrder(body, later)
    ensures SectionsBetween(body, [first] + later)
         == [Section(first.key, BodyBetween(body, [first] + later))] + SectionsBetween(body, later)
  {
    assert ([first] + later)[1..] == later;
  }

  lemma Regroup(pre: string, before: string, rest: string, k: nat)
    requires k <= |rest|
    ensures (pre + before + rest[..k]) + rest[k..] == pre + (before + rest)
  {
  }

  /** A found heading, spelled out from the end of its match. */
  lemma SectionsFromEnd<K(!new)>(m: Pattern<K>, s: string, bol: bool, before: string, rest: string)
    requires WellFormed(m) && LineBound(m) && First(m, s, bol) == At(before, rest) && Fits(m(rest), rest)
    ensures m(rest).Some?
    ensures var more, next := AfterMatch(m, rest), OnNewLine(m, rest);
            Sections(m, s, bol) == [Section(m(rest).value.key, Lead(m, more, next))] + Sections(m, more, next)
  {
    FromTheEnd(m, rest);
    SectionsAt(m, s, bol, before, rest);
  }

  /** From one match to the text behind it. */
  lemma Advance<K(!new)>(m: Pattern<K>, body: string, pre: string, s: string, bol: bool)
    returns (first: Match<K>, pre': string, more: string, next: bool)
    requires WellFormed(m) && LineBound(m) && body == pre + s && First(m, s, bol).At?
    ensures body == pre' + more && |more| < |s|
    ensures first.start == |pre| + |First(m, s, bol).before| <= first.end == |pre'|
    ensures FindAll(m, s, bol, |pre|) == [first] + FindAll(m, more, next, |pre'|)
    ensures Sections(m, s, bol) == [Section(first.key, Lead(m, more, next))] + Sections(m, more, next)
  {
    var f := First(m, s, bol);
    assert Fits(m(f.rest), f.rest);
    more, next := AfterMatch(m, f.rest), OnNewLine(m, f.rest);
    first := MatchAt(m, f.rest, |pre| + |f.before|);
    FindAllAt(m, s, bol, |pre|, f.before, f.rest);
    SectionsFromEnd(m, s, bol, f.before, f.rest);
    pre' := Passed(m, body, pre, s, bol, m(f.rest).value.end);
  }

  lemma Passed<K>(m: Pattern<K>, body: string, pre: string, s: string, bol: bool, k: nat) returns (pre': string)
    requires body == pre + s && First(m, s, bol).At? && k <= |First(m, s, bol).rest|
    ensures body == pre' + First(m, s, bol).rest[k..] && |pre'| == |pre| + |First(m, s, bol).before| + k
  {
    var f := First(m, s, bol);
    FirstSplits(m, s, bol);
    Regroup(pre, f.before, f.rest, k);
    pre' := pre + f.before + f.rest[..k];
  }

  /** Searching by position finds the sections; `s` is what is left of `body` behind `pre`. */
  lemma {:induction false} FindAllIsSections<K(!new)>(m: Pattern<K>, body: string, pre: string, s: string, bol: bool)
    requires WellFormed(m) && LineBound(m) && body == pre + s
    ensures InOrder(body, FindAll(m, s, bol, |pre|))
    ensures SectionsBetween(body, FindAll(m, s, bol, |pre|)) == Sections(m, s, bol)
    ensures StartsAt(FindAll(m, s, bol, |pre|), First(m, s, bol), |pre|)
    decreases |s|
  {
    if First(m, s, bol).At? {
      var first, pre', more, next := Advance(m, body, pre, s, bol);
      FindAllIsSections(m, body, pre', more, next);
      FirstBody(m, body, pre', more, next, first, FindAll(m, more, next, |pre'|));
    }
  }

  predicate StartsAt<K>(ms: seq<Match<K>>, f: Found, offset: nat) {
    if f.At? then ms != [] && ms[0].start == offset + |f.before| else ms == []
  }

  lemma BodyOfCons<K>(body: string, first: Match<K>, later: seq<Match<K>>)
    requires InOrder(body, [first] + later)
    ensures first.end <= |body| && (later != [] ==> first.end <= later[0].start <= |body|)
    ensures BodyBetween(body, [first] + later)
         == Strip(body[first.end..if later != [] then later[0].start else |body|])
  {
    assert ([first] + later)[1..] == later;
  }

  /** Between a match that ends where `s` begins and the next one stands what leads `s`. */
  lemma LeadBetween<K>(m: Pattern<K>, body: string, pre: string, s: string, bol: bool, later: seq<Match<K>>)
    requires body == pre + s && StartsAt(later, First(m, s, bol), |pre|)
    ensures |pre| <= (if later != [] then later[0].start else |body|) <= |body|
    ensures Strip(body[|pre|..if later != [] then later[0].start else |body|]) == Lead(m, s, bol)
  {
    var f := First(m, s, bol);
    FirstSplits(m, s, bol);
    if f.At? {
      Between(body, pre, f.before, f.rest);
    } else {
      assert body[|pre|..|body|] == s;
    }
  }

  /** The first match in front of those found behind it. */
  lemma FirstBody<K>(m: Pattern<K>, body: string, pre: string, s: string, bol: bool, first: Match<K>, later: seq<Match<K>>)
    requires body == pre + s && first.start <= first.end == |pre|
    requires InOrder(body, later) && StartsAt(later, First(m, s, bol), |pre|)
    ensures InOrder(body, [first] + later)
    ensures SectionsBetween(body, [first] + later)
         == [Section(first.key, Lead(m, s, bol))] + SectionsBetween(body, later)
  {
    LeadBetween(m, body, pre, s, bol, later);
    InOrderCons(body, first, later);
    SectionsBetweenCons(body, first, later);
    BodyOfCons(body, first, later);
  }

  lemma {:induction false} SectionAt<K>(body: string, ms: seq<Match<K>>, i: nat)
    requires InOrder(body, ms) && i < |ms|
    ensures |SectionsBetween(body, ms)| == |ms|
    ensures ms[i].end <= (if i + 1 < |ms| then ms[i + 1].start else |body|) <= |body|
    ensures SectionsBetween(body, ms)[i]
         == Section(ms[i].key, Strip(body[ms[i].end..if i + 1 < |ms| then ms[i + 1].start else |body|]))
  {
    if i > 0 {
      SectionAt(body, ms[1..], i - 1);
    } else if |ms| > 1 {
      SectionAt(body, ms[1..], 0);
    }
  }
}
