/**
 What an episode of the stall log says, told by the log alone: by the events of its key from its
 `enter` up to the next one.
 */
module EpisodeFacts {
  import opened Common
  import opened BlockLog

  /** The events of one key from an `enter` up to the next. */
  ghost predicate IsSpan(es: seq<Event>) {
    es != [] && es[0].Enter? && forall k :: 0 < k < |es| ==> !es[k].Enter?
  }

  /** `own[p..q]` is such a span of `own`, and no longer one is. */
  ghost predicate SpanAt(own: seq<Event>, p: nat, q: nat) {
    p < q <= |own| && IsSpan(own[p..q]) && (q < |own| ==> own[q].Enter?)
  }

  // ── what the events of a span add up to ────────────────────────────────────

  /** Of a span: its `enter`, its first `resolve`, the diagnoses before that, and all interventions. */
  datatype Facts = Facts(enter: Event, release: Option<Event>, diagnoses: seq<Event>, interventions: seq<Event>)

  function Grow(f: Facts, e: Event): Facts {
    if e.Intervention? then f.(interventions := f.interventions + [e])
    else if e.Diagnosis? && f.release == None then f.(diagnoses := f.diagnoses + [e])
    else if e.Resolve? && f.release == None then f.(release := Some(e))
    else f
  }

  function FactsOf(es: seq<Event>): Facts
    requires es != []
  {
    if |es| == 1 then Facts(es[0], None, [], []) else Grow(FactsOf(es[..|es| - 1]), es[|es| - 1])
  }

  /** The events before the first `resolve`. */
  function BeforeRelease(es: seq<Event>): (before: seq<Event>)
    ensures before <= es
  {
    if es == [] || es[0].Resolve? then []
    else
      assert es == [es[0]] + es[1..];
      [es[0]] + BeforeRelease(es[1..])
  }

  function DiagnosesIn(es: seq<Event>): seq<Event> {
    if es == [] then [] else DiagnosesIn(es[..|es| - 1]) + (if es[|es| - 1].Diagnosis? then [es[|es| - 1]] else [])
  }

  function InterventionsIn(es: seq<Event>): seq<Event> {
    if es == [] then []
    else InterventionsIn(es[..|es| - 1]) + (if es[|es| - 1].Intervention? then [es[|es| - 1]] else [])
  }

  lemma {:induction false} BeforeReleaseGrows(es: seq<Event>, e: Event)
    ensures BeforeRelease(es + [e]) == if |BeforeRelease(es)| == |es| && !e.Resolve? then es + [e] else BeforeRelease(es)
  {
    if es == [] {
      assert es + [e] == [e] && [e][1..] == [];
    } else {
      assert (es + [e])[1..] == es[1..] + [e];
      BeforeReleaseGrows(es[1..], e);
      assert es == [es[0]] + es[1..];
    }
  }

  /** The facts of a span, read off its events by position. */
  ghost predicate AreFacts(f: Facts, es: seq<Event>) {
    var i := |BeforeRelease(es)|;
    && es != [] && f.enter == es[0]
    && f.release == (if i < |es| then Some(es[i]) else None)
    && (i < |es| ==> es[i].Resolve?)
    && f.diagnoses == DiagnosesIn(es[..i]) && f.interventions == InterventionsIn(es)
  }

  lemma FactsGrow(f: Facts, init: seq<Event>, e: Event)
    requires AreFacts(f, init) && !e.Enter?
    ensures AreFacts(Grow(f, e), init + [e])
  {
    var es, i := init + [e], |BeforeRelease(init)|;
    BeforeReleaseGrows(init, e);
    assert es[..|init|] == init;
    if i < |init| {
      assert es[i] == init[i] && es[..i] == init[..i];
    } else if e.Resolve? {
      assert es[..i] == init[..i] && es[i] == e;
    } else {
      assert es[..i + 1] == es && init[..i] == init && es[|init|] == e;
    }
  }

  lemma {:induction false} FactsAre(es: seq<Event>)
    requires IsSpan(es)
    ensures AreFacts(FactsOf(es), es)
  {
    var init, last := es[..|es| - 1], es[|es| - 1];
    if init == [] {
      assert es == [last] && es[1..] == [] && BeforeRelease(es) == [last];
      assert es[..1] == es && es[..0] == [] && DiagnosesIn(es[..0]) == [] && InterventionsIn(es[..0]) == [];
    } else {
      FactsAre(init);
      FactsGrow(FactsOf(init), init, last);
      assert es == init + [last];
    }
  }

  /** Resolved exactly when there is a release, with what that says, after so many seconds. */
  ghost predicate Releases(ep: Episode, f: Facts) {
    match f.release
    case None => !ep.resolved && ep.resolvedAt == None && ep.stalledSeconds == None && ep.resolution == "" && ep.source == ""
    case Some(e) =>
      && e.Resolve? && ep.resolved && ep.resolvedAt == Some(e.ts) && ep.resolution == e.resolution && ep.source == e.source
      && ep.stalledSeconds == Some(if e.ts > f.enter.ts then e.ts - f.enter.ts else 0.0)
  }

  /** A human acted if the release says so or somebody intervened, before it or after; nobody knows before either. */
  ghost predicate Credits(ep: Episode, f: Facts) {
    && (f.release.Some? ==> f.release.value.Resolve?)
    && ep.humanActed == (if f.interventions != [] then Some(true)
                         else if f.release.Some? then Some(f.release.value.humanActed) else None)
  }

  /** The latest diagnosis stands; the cause is the release's own once there is one. */
  ghost predicate Explains(ep: Episode, f: Facts) {
    && ep.diagnoses == |f.diagnoses|
    && (f.diagnoses == [] ==>
          ep.diagnosedCause == "" && ep.confidence == "" && ep.evidence == [] && !ep.contradicts
          && (f.release == None ==> ep.trueCause == ""))
    && (f.diagnoses != [] ==>
          var d := f.diagnoses[|f.diagnoses| - 1];
          && d.Diagnosis? && ep.diagnosedCause == d.cause && ep.confidence == d.confidence && ep.evidence == d.evidence
          && ep.contradicts == d.contradicts && (f.release == None ==> ep.trueCause == d.trueCause))
    && (f.release == None ==> ep.agreement == "")
    && (f.release.Some? ==>
          && f.release.value.Resolve? && ep.trueCause == f.release.value.trueCause
          && ep.agreement == AgreementFor(ep.diagnosedCause, f.release.value.trueCause))
  }

  function NoteOf(e: Event): LoggedIntervention {
    if !e.Intervention? then LoggedIntervention(e.ts, "", "", "")
    else LoggedIntervention(e.ts, if e.category == "" then "other" else e.category, e.note, e.host)
  }

  function NotesOf(es: seq<Event>): seq<LoggedIntervention> {
    if es == [] then [] else NotesOf(es[..|es| - 1]) + [NoteOf(es[|es| - 1])]
  }

  ghost predicate HasCategory(notes: seq<LoggedIntervention>, c: string) {
    exists k :: 0 <= k < |notes| && notes[k].category == c
  }

  /** Every intervention is noted, in order, and its category once. */
  ghost predicate Notes(ep: Episode, f: Facts) {
    && ep.interventions == NotesOf(f.interventions)
    && (forall c :: c in ep.categories <==> HasCategory(ep.interventions, c))
    && (forall j, k :: 0 <= j < k < |ep.categories| ==> ep.categories[j] != ep.categories[k])
  }

  ghost predicate Told(ep: Episode, f: Facts) {
    && f.enter.Enter? && ep.key == f.enter.key && ep.state == f.enter.state && ep.statedReason == f.enter.statedReason
    && ep.enteredAt == f.enter.ts && ep.attempts == f.enter.attempts && ep.host == f.enter.host
    && Releases(ep, f) && Credits(ep, f) && Explains(ep, f) && Notes(ep, f)
  }

  // ── what a verdict on a diagnosis means ────────────────────────────────────

  /** The diagnosis names what the release says really happened. */
  predicate Names(diagnosed: string, cause: string) {
    || (cause == "already-landed" && diagnosed in {"pr-merged", "pr-closed"})
    || (cause == "gate-cleared-after-giveup" && diagnosed in {"nothing-blocking", "ci-green", "ci-pending"})
    || (cause == "ci-reported" && diagnosed in {"nothing-blocking", "ci-green", "ci-pending"})
    || (cause == "unrefreshable-reading" && diagnosed in {"nothing-blocking", "ci-green", "no-pr"})
  }

  /** The releases that say enough to judge a diagnosis by. */
  predicate Telling(cause: string) {
    cause == "already-landed" || cause == "gate-cleared-after-giveup" || cause == "ci-reported"
    || cause == "unrefreshable-reading"
  }

  /** What stands in front of the dash is what is compared; a text without one stands for itself. */
  lemma {:induction false} SlugIsInFront(name: string, note: string)
    requires '\U{2014}' !in name
    ensures Slug(name + DASH + note) == name && Slug(name) == name
  {
    var s := name + DASH + note;
    if name == "" {
      assert DASH <= s;
    } else {
      assert s[0] == name[0] && s[1..] == name[1..] + DASH + note;
      assert s[1] != '\U{2014}' by {
        assert s[1] == if |name| > 1 then name[1] else ' ';
      }
      SlugIsInFront(name[1..], note);
    }
  }

  /** `text` is `name`, or has a note behind it. */
  ghost predicate Stands(text: string, name: string) {
    '\U{2014}' !in name && (text == name || exists note :: text == name + DASH + note)
  }

  /**
   Each verdict is given exactly when it is due, whatever notes follow the names: none without a
   diagnosis, none against one that abstained, none on a release that says too little.
   */
  lemma VerdictIsDue(diagnosed: string, d: string, cause: string, c: string)
    requires Stands(diagnosed, d) && Stands(cause, c)
    ensures var verdict := AgreementFor(diagnosed, cause);
            && (verdict == "agreed" <==> Names(d, c))
            && (verdict == "disagreed" <==> d != "" && d != "unknown" && Telling(c) && !Names(d, c))
            && (verdict == "undecided" <==> d != "" && d != "unknown" && !Telling(c))
            && (verdict == "abstained" <==> d == "unknown") && (verdict == "" <==> d == "")
  {
    SlugStands(diagnosed, d);
    SlugStands(cause, c);
    VerdictOnSlugs(diagnosed, cause);
  }

  lemma VerdictOnSlugs(diagnosed: string, cause: string)
    ensures var verdict, d, c := AgreementFor(diagnosed, cause), Slug(diagnosed), Slug(cause);
            && (verdict == "agreed" <==> Names(d, c))
            && (verdict == "disagreed" <==> d != "" && d != "unknown" && Telling(c) && !Names(d, c))
            && (verdict == "undecided" <==> d != "" && d != "unknown" && !Telling(c))
            && (verdict == "abstained" <==> d == "unknown") && (verdict == "" <==> d == "")
  {
  }

  lemma SlugStands(text: string, name: string)
    requires Stands(text, name)
    ensures Slug(text) == name
  {
    if text == name {
      SlugIsInFront(name, "");
    } else {
      var note :| text == name + DASH + note;
      SlugIsInFront(name, note);
    }
  }

  // ── the reading of a span ──────────────────────────────────────────────────

  lemma DiagnosisTold(ep: Episode, f: Facts, e: Event)
    requires Told(ep, f) && e.Diagnosis? && f.release == None
    ensures Told(Diagnosed(ep, e), Grow(f, e))
  {
  }

  lemma ResolveTold(ep: Episode, f: Facts, e: Event)
    requires Told(ep, f) && e.Resolve? && f.release == None
    ensures Told(Resolved(ep, e), Grow(f, e))
  {
  }

  lemma CategoryAdded(ep: Episode, e: Event)
    requires e.Intervention? && forall c :: c in ep.categories <==> HasCategory(ep.interventions, c)
    ensures var x := Intervened(ep, e); forall c :: c in x.categories <==> HasCategory(x.interventions, c)
  {
    var x, n := Intervened(ep, e), |ep.interventions|;
    forall c ensures c in x.categories <==> HasCategory(x.interventions, c) {
      assert x.interventions[n].category == NoteOf(e).category;
      if HasCategory(ep.interventions, c) {
        var k :| 0 <= k < n && ep.interventions[k].category == c;
        assert x.interventions[k] == ep.interventions[k];
      }
    }
  }

  lemma InterventionTold(ep: Episode, f: Facts, e: Event)
    requires Told(ep, f) && e.Intervention?
    ensures Told(Intervened(ep, e), Grow(f, e))
  {
    var x, more := Intervened(ep, e), f.interventions + [e];
    CategoryAdded(ep, e);
    assert more[..|f.interventions|] == f.interventions;
    assert Notes(x, Grow(f, e));
    assert Releases(x, Grow(f, e)) && Credits(x, Grow(f, e)) && Explains(x, Grow(f, e));
  }

  /** One more event, no `enter`, on a reading of one episode. */
  lemma TellsMore(r: Reading, f: Facts, e: Event)
    requires |r.episodes| == 1 && (r.open <==> f.release == None) && Told(r.episodes[0], f) && !e.Enter?
    ensures var t := ReadEvent(r, e);
            |t.episodes| == 1 && (t.open <==> Grow(f, e).release == None) && Told(t.episodes[0], Grow(f, e))
  {
    var ep := r.episodes[0];
    if e.Intervention? {
      InterventionTold(ep, f, e);
    } else if e.Diagnosis? && r.open {
      DiagnosisTold(ep, f, e);
    } else if e.Resolve? && r.open {
      ResolveTold(ep, f, e);
    }
  }

  lemma SpanStarts(e: Event)
    requires e.Enter?
    ensures Read([e]) == Reading([Opened(e)], true) && Told(Opened(e), Facts(e, None, [], []))
  {
    assert [e][..0] == [];
  }

  /** A span reads as one episode, open until its release, and the episode tells its facts. */
  lemma {:induction false} SpanTold(es: seq<Event>)
    requires IsSpan(es)
    ensures |Read(es).episodes| == 1 && (Read(es).open <==> FactsOf(es).release == None)
    ensures Told(Read(es).episodes[0], FactsOf(es))
  {
    var init, last := es[..|es| - 1], es[|es| - 1];
    if init == [] {
      assert es == [last];
      SpanStarts(last);
    } else {
      SpanTold(init);
      TellsMore(Read(init), FactsOf(init), last);
    }
  }

  // ── the spans of a log ─────────────────────────────────────────────────────

  function CountStarts(own: seq<Event>): nat {
    if own == [] then 0 else CountStarts(own[..|own| - 1]) + (if own[|own| - 1].Enter? then 1 else 0)
  }

  lemma {:induction false} ReadCountsStarts(own: seq<Event>)
    ensures |Read(own).episodes| == CountStarts(own)
  {
    if own != [] {
      ReadCountsStarts(own[..|own| - 1]);
    }
  }

  lemma SpanIsOne(es: seq<Event>)
    requires IsSpan(es)
    ensures |Read(es).episodes| == 1
  {
    SpanTold(es);
  }

  /** A long reading and that of its last span, one event later. */
  lemma LastAlike(r: Reading, s: Reading, e: Event)
    requires |s.episodes| == 1 && r.episodes != [] && r.episodes[|r.episodes| - 1] == s.episodes[0] && r.open == s.open
    requires !e.Enter?
    ensures var t, u := ReadEvent(r, e), ReadEvent(s, e);
            && |u.episodes| == 1 && |t.episodes| == |r.episodes|
            && t.episodes[|t.episodes| - 1] == u.episodes[0] && t.open == u.open
  {
  }

  /** The reading up to the end of a span ends with the episode of that span. */
  lemma {:induction false} ReadingOfSpan(own: seq<Event>, p: nat)
    requires p < |own| && IsSpan(own[p..])
    ensures var n, r := CountStarts(own[..p]), Read(own);
            && |r.episodes| == n + 1 && |Read(own[p..]).episodes| == 1
            && r.episodes[n] == Read(own[p..]).episodes[0] && r.open == Read(own[p..]).open
    decreases |own|
  {
    var init, last, es := own[..|own| - 1], own[|own| - 1], own[p..];
    if p == |own| - 1 {
      ReadCountsStarts(init);
      assert es == [last];
      SpanStarts(last);
    } else {
      assert init[p..] == es[..|es| - 1] && init[..p] == own[..p] && es[|es| - 1] == last;
      ReadingOfSpan(init, p);
      LastAlike(Read(init), Read(init[p..]), last);
    }
  }

  /** Later spans leave it alone. */
  lemma {:induction false} EpisodeOfSpan(own: seq<Event>, p: nat, q: nat)
    requires SpanAt(own, p, q)
    ensures var n := CountStarts(own[..p]);
            && n < |Read(own).episodes| && |Read(own[p..q]).episodes| == 1
            && Read(own).episodes[n] == Read(own[p..q]).episodes[0]
            && (q < |own| ==> n + 1 < |Read(own).episodes|)
    decreases |own|
  {
    if q == |own| {
      assert own[p..q] == own[p..];
      ReadingOfSpan(own, p);
    } else {
      var init := own[..|own| - 1];
      assert init[p..q] == own[p..q] && init[..p] == own[..p];
      EpisodeOfSpan(init, p, q);
    }
  }

  /** Which span the `n`-th `enter` starts. */
  lemma {:induction false} SpanOf(own: seq<Event>, n: nat) returns (p: nat, q: nat)
    requires n < CountStarts(own)
    ensures SpanAt(own, p, q) && CountStarts(own[..p]) == n
    decreases |own|
  {
    var init, last := own[..|own| - 1], own[|own| - 1];
    if n == CountStarts(init) {
      p, q := |own| - 1, |own|;
      assert own[p..q] == [last];
    } else {
      p, q := SpanOf(init, n);
      assert init[..p] == own[..p] && init[p..q] == own[p..q];
      if q == |own| - 1 && !last.Enter? {
        q := |own|;
        assert own[p..q] == init[p..] + [last];
      }
    }
  }

  // ── the main results ───────────────────────────────────────────────────────

  lemma {:induction false} ReplayHasKeys(log: seq<Event>)
    ensures forall ep :: ep in Replay(log).out + Replay(log).open ==> ep.key != ""
  {
    if log != [] {
      ReplayHasKeys(log[..|log| - 1]);
      StepHasKeys(Replay(log[..|log| - 1]), log[|log| - 1]);
    }
  }

  lemma StepHasKeys(f: Fold, e: Event)
    requires forall ep :: ep in f.out + f.open ==> ep.key != ""
    ensures forall ep :: ep in Step(f, e).out + Step(f, e).open ==> ep.key != ""
  {
    assert forall i :: 0 <= i < |f.open| ==> f.open[i] in f.out + f.open;
    assert forall i :: 0 <= i < |f.out| ==> f.out[i] in f.out + f.open;
  }

  lemma {:induction false} OnHasIt(eps: seq<Episode>, ep: Episode)
    requires ep in eps
    ensures ep in On(eps, ep.key)
  {
    if eps[0] != ep {
      OnHasIt(eps[1..], ep);
    }
  }

  lemma SameMembers(eps: seq<Episode>)
    ensures forall ep :: ep in SortByEntry(eps) <==> ep in eps
  {
    SortByEntrySorts(eps);
    forall ep ensures ep in SortByEntry(eps) <==> ep in eps {
      assert ep in multiset(SortByEntry(eps)) <==> ep in multiset(eps);
    }
  }

  /** Every episode of a log tells one span of its key's events. */
  lemma EveryEpisodeIsTold(log: seq<Event>, ep: Episode) returns (p: nat, q: nat)
    requires ep in Episodes(log)
    ensures ep.key != "" && SpanAt(EventsOf(log, ep.key), p, q) && Told(ep, FactsOf(EventsOf(log, ep.key)[p..q]))
  {
    var own := EventsOf(log, ep.key);
    SameMembers(Replay(log).out + Replay(log).open);
    ReplayHasKeys(log);
    EpisodesOfKey(log, ep.key);
    OnHasIt(Episodes(log), ep);
    SameMembers(Read(own).episodes);
    var n: nat :| n < |Read(own).episodes| && Read(own).episodes[n] == ep;
    ReadCountsStarts(own);
    p, q := SpanOf(own, n);
    EpisodeOfSpan(own, p, q);
    SpanTold(own[p..q]);
  }

  /** And every span of every key has its episode. */
  lemma EverySpanIsTold(log: seq<Event>, key: string, p: nat, q: nat) returns (ep: Episode)
    requires key != "" && SpanAt(EventsOf(log, key), p, q)
    ensures ep in Episodes(log) && ep.key == key && Told(ep, FactsOf(EventsOf(log, key)[p..q]))
  {
    var own := EventsOf(log, key);
    EpisodeOfSpan(own, p, q);
    ep := Read(own).episodes[CountStarts(own[..p])];
    SpanTold(own[p..q]);
    FactsAre(own[p..q]);
    EventsOfAreOfKey(log, key);
    ReadEpisodeIsThere(log, key, ep);
  }

  lemma ReadEpisodeIsThere(log: seq<Event>, key: string, ep: Episode)
    requires key != "" && ep in Read(EventsOf(log, key)).episodes
    ensures ep in Episodes(log)
  {
    EpisodesOfKey(log, key);
    SameMembers(Read(EventsOf(log, key)).episodes);
    OnMembers(Episodes(log), key);
  }

  // ── how many are open ──────────────────────────────────────────────────────

  /** The latest word on `key` in the log is that it stalled. */
  predicate Stalls(log: seq<Event>, key: string) {
    log != [] &&
    (var e := log[|log| - 1];
     if e.key == key && e.Enter? then true
     else if e.key == key && e.Resolve? then false
     else Stalls(log[..|log| - 1], key))
  }

  /** The resolves that find their key stalled. */
  function CountReleases(log: seq<Event>): nat {
    if log == [] then 0
    else
      var init, e := log[..|log| - 1], log[|log| - 1];
      CountReleases(init) + (if e.Resolve? && e.key != "" && Stalls(init, e.key) then 1 else 0)
  }

  function CountUnresolved(eps: seq<Episode>): nat {
    if eps == [] then 0 else (if eps[0].resolved then 0 else 1) + CountUnresolved(eps[1..])
  }

  lemma {:induction false} UnresolvedConcat(a: seq<Episode>, b: seq<Episode>)
    ensures CountUnresolved(a + b) == CountUnresolved(a) + CountUnresolved(b)
  {
    if a == [] {
      assert a + b == b;
    } else {
      assert (a + b)[1..] == a[1..] + b;
      UnresolvedConcat(a[1..], b);
    }
  }

  lemma UnresolvedOne(x: Episode)
    ensures CountUnresolved([x]) == if x.resolved then 0 else 1
  {
    assert [x][1..] == [];
  }

  /** One episode among others, taken out or replaced. */
  lemma UnresolvedAt(eps: seq<Episode>, i: nat, x: Episode)
    requires i < |eps|
    ensures var here := if eps[i].resolved then 0 else 1;
            && CountUnresolved(eps) == CountUnresolved(Without(eps, i)) + here
            && CountUnresolved(eps[i := x]) == CountUnresolved(Without(eps, i)) + (if x.resolved then 0 else 1)
  {
    var a, b := eps[..i], eps[i + 1..];
    assert eps == a + ([eps[i]] + b) && eps[i := x] == a + ([x] + b);
    UnresolvedConcat(a, [eps[i]] + b);
    UnresolvedConcat([eps[i]], b);
    UnresolvedConcat(a, [x] + b);
    UnresolvedConcat([x], b);
    UnresolvedConcat(a, b);
    UnresolvedOne(eps[i]);
    UnresolvedOne(x);
  }

  lemma {:induction false} SortKeepsUnresolved(eps: seq<Episode>)
    ensures CountUnresolved(SortByEntry(eps)) == CountUnresolved(eps)
  {
    if eps != [] {
      SortKeepsUnresolved(eps[1..]);
      InsertUnresolved(eps[0], SortByEntry(eps[1..]));
    }
  }

  lemma {:induction false} InsertUnresolved(x: Episode, ys: seq<Episode>)
    ensures CountUnresolved(Insert(x, ys)) == CountUnresolved(ys) + (if x.resolved then 0 else 1)
  {
    if ys == [] || x.enteredAt <= ys[0].enteredAt {
      UnresolvedConcat([x], ys);
      UnresolvedOne(x);
    } else {
      InsertUnresolved(x, ys[1..]);
      assert ([ys[0]] + Insert(x, ys[1..]))[1..] == Insert(x, ys[1..]);
    }
  }

  ghost predicate NoneResolved(eps: seq<Episode>) {
    forall i :: 0 <= i < |eps| ==> !eps[i].resolved
  }

  lemma {:induction false} ReadingStalls(log: seq<Event>, key: string)
    requires key != ""
    ensures var r := Read(EventsOf(log, key)); Stalls(log, key) <==> r.episodes != [] && r.open
  {
    if log != [] {
      var init, e := log[..|log| - 1], log[|log| - 1];
      ReadingStalls(init, key);
      var own := EventsOf(init, key);
      if e.key == key {
        assert (own + [e])[..|own|] == own;
      } else {
        assert EventsOf(log, key) == own;
      }
    }
  }

  /** The open dictionary holds the key exactly while its latest word is that it stalled. */
  lemma StallsIsOpen(log: seq<Event>, key: string)
    requires key != ""
    ensures Stalls(log, key) <==> IndexOf(Replay(log).open, key) < |Replay(log).open|
  {
    ReadingStalls(log, key);
    ReplayAgrees(log, key);
    var open, r := Replay(log).open, Read(EventsOf(log, key));
    if Stalls(log, key) {
      assert On(open, key) == [r.episodes[|r.episodes| - 1]];
      if IndexOf(open, key) == |open| {
        AbsentIsNone(open, key);
      }
    } else {
      NoneOn(open, key);
    }
  }

  lemma {:induction false} AbsentIsNone(eps: seq<Episode>, key: string)
    requires IndexOf(eps, key) == |eps|
    ensures On(eps, key) == []
  {
    if eps != [] {
      AbsentIsNone(eps[1..], key);
    }
  }

  lemma {:induction false} ReplayUnresolved(log: seq<Event>)
    ensures CountUnresolved(Replay(log).out + Replay(log).open) == CountEnters(log) - CountReleases(log)
    ensures NoneResolved(Replay(log).open)
  {
    if log == [] {
    } else {
      var init, e := log[..|log| - 1], log[|log| - 1];
      ReplayUnresolved(init);
      if e.key != "" {
        StallsIsOpen(init, e.key);
        StepUnresolved(Replay(init), e);
      }
    }
  }

  lemma StepUnresolved(f: Fold, e: Event)
    requires NoneResolved(f.open) && e.key != ""
    ensures NoneResolved(Step(f, e).open)
    ensures CountUnresolved(Step(f, e).out + Step(f, e).open) == CountUnresolved(f.out + f.open)
          + (if e.Enter? then 1 else 0) - (if e.Resolve? && IndexOf(f.open, e.key) < |f.open| then 1 else 0)
  {
    UnresolvedConcat(f.out, f.open);
    UnresolvedConcat(Step(f, e).out, Step(f, e).open);
    if e.Enter? {
      EnterUnresolved(f, e);
    } else if e.Resolve? {
      ResolveUnresolved(f, e);
    } else {
      AnnotationUnresolved(f, e);
    }
  }

  lemma AnnotationUnresolved(f: Fold, e: Event)
    requires NoneResolved(f.open) && e.key != "" && !e.Enter? && !e.Resolve?
    ensures var g := Step(f, e);
            && NoneResolved(g.open)
            && CountUnresolved(g.out) + CountUnresolved(g.open) == CountUnresolved(f.out) + CountUnresolved(f.open)
  {
    var i, j := IndexOf(f.open, e.key), LastIndexOf(f.out, e.key);
    if e.Intervention? && i == |f.open| && j >= 0 {
      UnresolvedAt(f.out, j, Intervened(f.out[j], e));
    } else if e.Intervention? && i < |f.open| {
      UnresolvedAt(f.open, i, Intervened(f.open[i], e));
    } else if e.Diagnosis? && i < |f.open| {
      UnresolvedAt(f.open, i, Diagnosed(f.open[i], e));
    }
  }

  lemma EnterUnresolved(f: Fold, e: Event)
    requires NoneResolved(f.open) && e.key != "" && e.Enter?
    ensures var g := Step(f, e);
            && NoneResolved(g.open)
            && CountUnresolved(g.out) + CountUnresolved(g.open) == CountUnresolved(f.out) + CountUnresolved(f.open) + 1
  {
    var i, x := IndexOf(f.open, e.key), Opened(e);
    UnresolvedOne(x);
    if i < |f.open| {
      UnresolvedAt(f.open, i, f.open[i]);
      UnresolvedOne(f.open[i]);
      UnresolvedConcat(Without(f.open, i), [x]);
      UnresolvedConcat(f.out, [f.open[i]]);
    } else {
      UnresolvedConcat(f.open, [x]);
    }
  }

  lemma ResolveUnresolved(f: Fold, e: Event)
    requires NoneResolved(f.open) && e.key != "" && e.Resolve?
    ensures NoneResolved(Step(f, e).open)
    ensures var g, i := Step(f, e), IndexOf(f.open, e.key);
            CountUnresolved(g.out) + CountUnresolved(g.open)
            == CountUnresolved(f.out) + CountUnresolved(f.open) - (if i < |f.open| then 1 else 0)
  {
    var i := IndexOf(f.open, e.key);
    if i < |f.open| {
      var x := Resolved(f.open[i], e);
      UnresolvedAt(f.open, i, x);
      UnresolvedOne(x);
      UnresolvedConcat(f.out, [x]);
    }
  }

  /** Conservation: the unresolved episodes of a log are its keyed enters less the resolves that found their key stalled. */
  lemma UnresolvedAreEntersLessReleases(log: seq<Event>)
    ensures CountUnresolved(Episodes(log)) == CountEnters(log) - CountReleases(log)
  {
    ReplayUnresolved(log);
    SortKeepsUnresolved(Replay(log).out + Replay(log).open);
  }
}
