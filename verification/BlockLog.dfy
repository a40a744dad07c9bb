/**
 The stall log of `coord/block_log.py`: an append-only event log is folded into episodes.

 `Replay` folds the whole log through the map of open episodes and the list of closed ones.
 `Read` is the reference reading of one key's own events: every `enter` starts an episode
 and every other event belongs to the latest `enter`, or is dropped.
 `EpisodesOfKey` says that the fold, seen through any key, is that reading.
 */
module BlockLog {
  import opened Common

  datatype Event =
    | Enter(key: string, ts: real, state: string, statedReason: string, attempts: int, host: string)
    | Resolve(key: string, ts: real, resolution: string, trueCause: string, humanActed: bool, source: string)
    | Diagnosis(key: string, ts: real, cause: string, confidence: string, evidence: seq<string>,
                contradicts: bool, trueCause: string)
    | Intervention(key: string, ts: real, category: string, note: string, host: string)
    | Unknown(key: string, ts: real)

  datatype LoggedIntervention = LoggedIntervention(ts: real, category: string, note: string, host: string)

  datatype Episode = Episode(
    key: string, state: string, statedReason: string, enteredAt: real, attempts: int, host: string,
    resolved: bool, resolution: string, trueCause: string, humanActed: Option<bool>,
    resolvedAt: Option<real>, stalledSeconds: Option<real>, source: string,
    diagnoses: nat, diagnosedCause: string, confidence: string, evidence: seq<string>, contradicts: bool,
    agreement: string,
    interventions: seq<LoggedIntervention>, categories: seq<string>)

  // ── scoring a diagnosis ────────────────────────────────────────────────────

  const DASH := " \U{2014} "

  /** `text.split(" — ")[0]` */
  function Slug(text: string): string {
    if text == [] || DASH <= text then [] else [text[0]] + Slug(text[1..])
  }

  function AgreeingCauses(resolution: string): Option<set<string>> {
    if resolution == "already-landed" then Some({"pr-merged", "pr-closed"})
    else if resolution == "gate-cleared-after-giveup" then Some({"nothing-blocking", "ci-green", "ci-pending"})
    else if resolution == "ci-reported" then Some({"nothing-blocking", "ci-green", "ci-pending"})
    else if resolution == "unrefreshable-reading" then Some({"nothing-blocking", "ci-green", "no-pr"})
    else None
  }

  function AgreementFor(diagnosedCause: string, resolutionCause: string): string {
    var diagnosed := Slug(diagnosedCause);
    var agreeing := AgreeingCauses(Slug(resolutionCause));
    if diagnosed == "" then ""
    else if diagnosed == "unknown" then "abstained"
    else if agreeing == None then "undecided"
    else if diagnosed in agreeing.value then "agreed" else "disagreed"
  }

  // ── what one event does to the episode it lands on ─────────────────────────

  function Opened(e: Event): Episode
    requires e.Enter?
  {
    Episode(e.key, e.state, e.statedReason, e.ts, e.attempts, e.host,
            false, "", "", None, None, None, "", 0, "", "", [], false, "", [], [])
  }

  function Diagnosed(ep: Episode, e: Event): Episode
    requires e.Diagnosis?
  {
    ep.(diagnoses := ep.diagnoses + 1, diagnosedCause := e.cause, confidence := e.confidence,
        evidence := e.evidence, contradicts := e.contradicts, trueCause := e.trueCause)
  }

  predicate HumanActed(ep: Episode) {
    ep.humanActed == Some(true)
  }

  function Resolved(ep: Episode, e: Event): Episode
    requires e.Resolve?
  {
    var stalled := e.ts - ep.enteredAt;
    ep.(resolved := true, resolution := e.resolution, trueCause := e.trueCause,
        humanActed := Some(e.humanActed || HumanActed(ep)), resolvedAt := Some(e.ts),
        stalledSeconds := Some(if stalled > 0.0 then stalled else 0.0), source := e.source,
        agreement := AgreementFor(ep.diagnosedCause, e.trueCause))
  }

  function Intervened(ep: Episode, e: Event): Episode
    requires e.Intervention?
  {
    var category := if e.category == "" then "other" else e.category;
    ep.(interventions := ep.interventions + [LoggedIntervention(e.ts, category, e.note, e.host)],
        categories := if category in ep.categories then ep.categories else ep.categories + [category],
        humanActed := Some(true))
  }

  // ── the fold, on values ────────────────────────────────────────────────────

  /** Index of the first episode of `key`, or the length when there is none. */
  function IndexOf(eps: seq<Episode>, key: string): (i: nat)
    ensures i <= |eps|
    ensures i < |eps| ==> eps[i].key == key
  {
    if eps == [] || eps[0].key == key then 0 else 1 + IndexOf(eps[1..], key)
  }

  /** Index of the last episode of `key`, or -1. */
  function LastIndexOf(eps: seq<Episode>, key: string): (i: int)
    ensures -1 <= i < |eps|
    ensures i >= 0 ==> eps[i].key == key
  {
    if eps == [] then -1
    else if eps[|eps| - 1].key == key then |eps| - 1
    else LastIndexOf(eps[..|eps| - 1], key)
  }

  lemma {:induction false} LastIndexIs(eps: seq<Episode>, key: string, i: int)
    requires -1 <= i < |eps| && (i >= 0 ==> eps[i].key == key)
    requires forall j :: i < j < |eps| ==> eps[j].key != key
    ensures LastIndexOf(eps, key) == i
  {
    if i + 1 < |eps| {
      LastIndexIs(eps[..|eps| - 1], key, i);
    }
  }

  function Without(eps: seq<Episode>, i: nat): seq<Episode>
    requires i < |eps|
  {
    eps[..i] + eps[i + 1..]
  }

  /** `open` is the insertion-ordered dictionary of open episodes, `out` the list of closed ones. */
  datatype Fold = Fold(open: seq<Episode>, out: seq<Episode>)

  function FoldIntervention(f: Fold, e: Event): Fold
    requires e.Intervention?
  {
    var i := IndexOf(f.open, e.key);
    var j := LastIndexOf(f.out, e.key);
    if i < |f.open| then f.(open := f.open[i := Intervened(f.open[i], e)])
    else if j >= 0 then f.(out := f.out[j := Intervened(f.out[j], e)])
    else f
  }

  function Step(f: Fold, e: Event): Fold {
    if e.key == "" then f else
    var i := IndexOf(f.open, e.key);
    match e
    case Enter(_, _, _, _, _, _) =>
      if i < |f.open| then Fold(Without(f.open, i) + [Opened(e)], f.out + [f.open[i]])
      else f.(open := f.open + [Opened(e)])
    case Intervention(_, _, _, _, _) => FoldIntervention(f, e)
    case Diagnosis(_, _, _, _, _, _, _) =>
      if i < |f.open| then f.(open := f.open[i := Diagnosed(f.open[i], e)]) else f
    case Resolve(_, _, _, _, _, _) =>
      if i < |f.open| then Fold(Without(f.open, i), f.out + [Resolved(f.open[i], e)]) else f
    case Unknown(_, _) => f
  }

  function Replay(log: seq<Event>): Fold {
    if log == [] then Fold([], []) else Step(Replay(log[..|log| - 1]), log[|log| - 1])
  }

  /** Python's `list.sort(key=entered_at)`: stable, ascending. */
  function Insert(x: Episode, ys: seq<Episode>): seq<Episode> {
    if ys == [] || x.enteredAt <= ys[0].enteredAt then [x] + ys else [ys[0]] + Insert(x, ys[1..])
  }

  function SortByEntry(eps: seq<Episode>): seq<Episode> {
    if eps == [] then [] else Insert(eps[0], SortByEntry(eps[1..]))
  }

  function Episodes(log: seq<Event>): seq<Episode> {
    SortByEntry(Replay(log).out + Replay(log).open)
  }

  // ── the fold, as the source runs it ────────────────────────────────────────

  /** `_fold_intervention`: the open episode of the key, else the latest closed one, else nothing. */
  method FoldInterventionInPlace(open: seq<Episode>, out: seq<Episode>, e: Event)
    returns (open': seq<Episode>, out': seq<Episode>)
    requires e.Intervention?
    ensures Fold(open', out') == FoldIntervention(Fold(open, out), e)
  {
    open', out' := open, out;
    var i := IndexOf(open, e.key);
    if i < |open| {
      open' := open[i := Intervened(open[i], e)];
      return;
    }
    var j := |out| - 1;
    while j >= 0 && out[j].key != e.key
      invariant -1 <= j < |out|
      invariant forall k :: j < k < |out| ==> out[k].key != e.key
    {
      j := j - 1;
    }
    LastIndexIs(out, e.key, j);
    if j >= 0 {
      out' := out[j := Intervened(out[j], e)];
    }
  }

  /** `episodes`. */
  method FoldEpisodes(events: seq<Event>) returns (result: seq<Episode>)
    ensures result == Episodes(events)
  {
    var open: seq<Episode>, out: seq<Episode> := [], [];
    for n := 0 to |events|
      invariant Fold(open, out) == Replay(events[..n])
    {
      var e := events[n];
      assert events[..n + 1][..n] == events[..n];
      if e.key == "" {
        continue;
      }
      var i := IndexOf(open, e.key);
      match e {
        case Enter(_, _, _, _, _, _) =>
          if i < |open| {
            out := out + [open[i]];
            open := open[..i] + open[i + 1..];
          }
          open := open + [Opened(e)];
        case Intervention(_, _, _, _, _) =>
          open, out := FoldInterventionInPlace(open, out, e);
        case Diagnosis(_, _, _, _, _, _, _) =>
          if i < |open| {
            open := open[i := Diagnosed(open[i], e)];
          }
        case Resolve(_, _, _, _, _, _) =>
          if i < |open| {
            out := out + [Resolved(open[i], e)];
            open := open[..i] + open[i + 1..];
          }
        case Unknown(_, _) =>
      }
    }
    assert events[..|events|] == events;
    result := SortByEntry(out + open);
  }

  // ── the reference reading of one key's events ──────────────────────────────

  /** The episodes of one key, oldest `enter` first; only the latest can still be open. */
  datatype Reading = Reading(episodes: seq<Episode>, open: bool)

  function ReadEvent(r: Reading, e: Event): Reading {
    if e.Enter? then Reading(r.episodes + [Opened(e)], true)
    else if r.episodes == [] then r
    else
      var last := |r.episodes| - 1;
      var ep := r.episodes[last];
      match e
      case Intervention(_, _, _, _, _) => r.(episodes := r.episodes[last := Intervened(ep, e)])
      case Diagnosis(_, _, _, _, _, _, _) =>
        if r.open then r.(episodes := r.episodes[last := Diagnosed(ep, e)]) else r
      case Resolve(_, _, _, _, _, _) =>
        if r.open then Reading(r.episodes[last := Resolved(ep, e)], false) else r
      case _ => r
  }

  function Read(own: seq<Event>): Reading {
    if own == [] then Reading([], false) else ReadEvent(Read(own[..|own| - 1]), own[|own| - 1])
  }

  function On(eps: seq<Episode>, key: string): seq<Episode> {
    if eps == [] then []
    else (if eps[0].key == key then [eps[0]] else []) + On(eps[1..], key)
  }

  function EventsOf(log: seq<Event>, key: string): seq<Event> {
    if log == [] then []
    else EventsOf(log[..|log| - 1], key) + (if log[|log| - 1].key == key then [log[|log| - 1]] else [])
  }

  lemma Regroup(a: seq<Episode>, b: seq<Episode>, c: seq<Episode>)
    ensures a + (b + c) == (a + b) + c
  {
  }

  lemma {:induction false} OnConcat(a: seq<Episode>, b: seq<Episode>, key: string)
    ensures On(a + b, key) == On(a, key) + On(b, key)
  {
    if a == [] {
      assert a + b == b;
    } else {
      assert (a + b)[1..] == a[1..] + b;
      OnConcat(a[1..], b, key);
      Regroup(if a[0].key == key then [a[0]] else [], On(a[1..], key), On(b, key));
    }
  }

  lemma OnAppend(eps: seq<Episode>, x: Episode, key: string)
    ensures On(eps + [x], key) == On(eps, key) + (if x.key == key then [x] else [])
  {
    OnConcat(eps, [x], key);
    assert [x][1..] == [];
  }

  lemma {:induction false} OnAll(eps: seq<Episode>, key: string)
    requires forall i :: 0 <= i < |eps| ==> eps[i].key == key
    ensures On(eps, key) == eps
  {
    if eps != [] {
      OnAll(eps[1..], key);
    }
  }

  /** Changing or dropping an episode of another key is invisible through `key`. */
  lemma {:induction false} OnElsewhere(eps: seq<Episode>, i: nat, x: Episode, key: string)
    requires i < |eps| && eps[i].key == x.key != key
    ensures On(eps[i := x], key) == On(eps, key) == On(Without(eps, i), key)
  {
    if i == 0 {
      assert eps[i := x][1..] == eps[1..];
      assert Without(eps, i) == eps[1..];
    } else {
      OnElsewhere(eps[1..], i - 1, x, key);
      assert eps[i := x][1..] == eps[1..][i - 1 := x];
      assert Without(eps, i)[1..] == Without(eps[1..], i - 1);
    }
  }

  /** The one open episode of a key: where it is, and what replacing or dropping it leaves. */
  lemma {:induction false} OnlyOne(eps: seq<Episode>, x: Episode)
    requires |On(eps, x.key)| == 1
    ensures var i := IndexOf(eps, x.key);
            && i < |eps| && On(eps, x.key) == [eps[i]]
            && On(eps[i := x], x.key) == [x] && On(Without(eps, i), x.key) == []
  {
    var i := IndexOf(eps, x.key);
    if eps[0].key == x.key {
      assert On(eps[1..], x.key) == [];
      assert eps[i := x][1..] == eps[1..];
      assert Without(eps, i) == eps[1..];
    } else {
      OnlyOne(eps[1..], x);
      assert eps[i := x][1..] == eps[1..][i - 1 := x];
      assert Without(eps, i)[1..] == Without(eps[1..], i - 1);
    }
  }

  lemma {:induction false} NoneOn(eps: seq<Episode>, key: string)
    requires On(eps, key) == []
    ensures IndexOf(eps, key) == |eps| && LastIndexOf(eps, key) == -1
  {
    if eps != [] {
      NoneOn(eps[1..], key);
      forall j | 0 <= j < |eps| ensures eps[j].key != key {
        if j > 0 {
          NoneOnAt(eps[1..], key, j - 1);
        }
      }
      LastIndexIs(eps, key, -1);
    }
  }

  lemma {:induction false} NoneOnAt(eps: seq<Episode>, key: string, j: nat)
    requires On(eps, key) == [] && j < |eps|
    ensures eps[j].key != key
  {
    if j > 0 {
      NoneOnAt(eps[1..], key, j - 1);
    }
  }

  lemma LatestAtEnd(init: seq<Episode>, z: Episode, x: Episode)
    requires z.key == x.key
    ensures var eps, own := init + [z], On(init + [z], x.key);
            && LastIndexOf(eps, x.key) == |init| && own != [] && own[|own| - 1] == z
            && On(eps[|init| := x], x.key) == own[|own| - 1 := x]
  {
    OnAppend(init, z, x.key);
    OnAppend(init, x, x.key);
    assert (init + [z])[|init| := x] == init + [x];
  }

  /** The latest closed episode of a key: where it is, and what replacing it leaves. */
  lemma {:induction false} LatestOf(eps: seq<Episode>, x: Episode)
    requires On(eps, x.key) != []
    ensures var j, own := LastIndexOf(eps, x.key), On(eps, x.key);
            && j >= 0 && eps[j] == own[|own| - 1]
            && On(eps[j := x], x.key) == own[|own| - 1 := x]
  {
    var init, z := eps[..|eps| - 1], eps[|eps| - 1];
    assert eps == init + [z];
    if z.key == x.key {
      LatestAtEnd(init, z, x);
    } else {
      OnAppend(init, z, x.key);
      assert On(init, x.key) + [] == On(init, x.key);
      LatestOf(init, x);
      LatestBefore(init, z, x, LastIndexOf(init, x.key));
    }
  }

  lemma LatestBefore(init: seq<Episode>, z: Episode, x: Episode, j: nat)
    requires z.key != x.key && j < |init|
    ensures On((init + [z])[j := x], x.key) == On(init[j := x], x.key)
  {
    assert (init + [z])[j := x] == init[j := x] + [z];
    OnAppend(init[j := x], z, x.key);
    assert On(init[j := x], x.key) + [] == On(init[j := x], x.key);
  }

  /** The fold seen through `key` is the reading `r`. */
  ghost predicate Agrees(f: Fold, r: Reading, key: string) {
    && On(f.out, key) + On(f.open, key) == r.episodes
    && On(f.open, key) == (if r.episodes != [] && r.open then [r.episodes[|r.episodes| - 1]] else [])
  }

  /** An event of another key is invisible through `key`. */
  lemma StepElsewhere(f: Fold, e: Event, key: string)
    requires e.key != key
    ensures On(Step(f, e).open, key) == On(f.open, key)
    ensures On(Step(f, e).out, key) == On(f.out, key)
  {
    var i := IndexOf(f.open, e.key);
    var j := LastIndexOf(f.out, e.key);
    match e
    case Enter(_, _, _, _, _, _) =>
      OnAppend(if i < |f.open| then Without(f.open, i) else f.open, Opened(e), key);
      if i < |f.open| {
        OnElsewhere(f.open, i, f.open[i], key);
        OnAppend(f.out, f.open[i], key);
      }
    case Intervention(_, _, _, _, _) =>
      if i < |f.open| {
        OnElsewhere(f.open, i, Intervened(f.open[i], e), key);
      } else if j >= 0 {
        OnElsewhere(f.out, j, Intervened(f.out[j], e), key);
      }
    case Diagnosis(_, _, _, _, _, _, _) =>
      if i < |f.open| {
        OnElsewhere(f.open, i, Diagnosed(f.open[i], e), key);
      }
    case Resolve(_, _, _, _, _, _) =>
      if i < |f.open| {
        OnElsewhere(f.open, i, f.open[i], key);
        OnAppend(f.out, Resolved(f.open[i], e), key);
      }
    case Unknown(_, _) =>
  }

  /** An `enter` while an episode of the key is open: the old one is closed unresolved. */
  lemma EnterSupersedes(f: Fold, r: Reading, e: Event)
    requires e.Enter? && e.key != "" && Agrees(f, r, e.key)
    requires On(f.open, e.key) != []
    ensures Agrees(Step(f, e), ReadEvent(r, e), e.key)
  {
    var i, x := IndexOf(f.open, e.key), Opened(e);
    OnlyOne(f.open, x);
    var ep := f.open[i];
    OnAppend(f.out, ep, e.key);
    OnAppend(Without(f.open, i), x, e.key);
    assert [] + [x] == [x];
    assert On(f.out + [ep], e.key) == On(f.out, e.key) + [ep] == r.episodes;
    assert (r.episodes + [x])[|r.episodes|] == x;
  }

  lemma EnterFresh(f: Fold, r: Reading, e: Event)
    requires e.Enter? && e.key != "" && Agrees(f, r, e.key)
    requires On(f.open, e.key) == []
    ensures Agrees(Step(f, e), ReadEvent(r, e), e.key)
  {
    NoneOn(f.open, e.key);
    OnAppend(f.open, Opened(e), e.key);
    assert On(f.out, e.key) + [] == On(f.out, e.key);
  }

  /** Replacing the latest episode of a key while it is open, and closing it. */
  lemma OpenReplaced(f: Fold, r: Reading, x: Episode)
    requires r.episodes != [] && r.open && Agrees(f, r, x.key)
    ensures var i, last := IndexOf(f.open, x.key), |r.episodes| - 1;
            && i < |f.open| && f.open[i] == r.episodes[last]
            && Agrees(f.(open := f.open[i := x]), Reading(r.episodes[last := x], true), x.key)
            && Agrees(Fold(Without(f.open, i), f.out + [x]), Reading(r.episodes[last := x], false), x.key)
  {
    OnlyOne(f.open, x);
    var past, last := On(f.out, x.key), |r.episodes| - 1;
    assert r.episodes == past + [r.episodes[last]];
    assert r.episodes[last := x] == past + [x];
    OnAppend(f.out, x, x.key);
  }

  /** Replacing the latest episode of a key after it was closed. */
  lemma ClosedReplaced(f: Fold, r: Reading, x: Episode)
    requires r.episodes != [] && !r.open && Agrees(f, r, x.key)
    ensures var j, last := LastIndexOf(f.out, x.key), |r.episodes| - 1;
            && IndexOf(f.open, x.key) == |f.open|
            && j >= 0 && f.out[j] == r.episodes[last]
            && Agrees(f.(out := f.out[j := x]), Reading(r.episodes[last := x], false), x.key)
  {
    NoneOn(f.open, x.key);
    assert On(f.out, x.key) == r.episodes;
    LatestOf(f.out, x);
  }

  lemma {:induction false} ReadingHasKey(own: seq<Event>, key: string)
    requires forall i :: 0 <= i < |own| ==> own[i].key == key
    ensures forall i :: 0 <= i < |Read(own).episodes| ==> Read(own).episodes[i].key == key
  {
    if own != [] {
      ReadingHasKey(own[..|own| - 1], key);
    }
  }

  /** Every other event lands on the latest `enter` of its own key, or is dropped. */
  lemma OtherHere(f: Fold, r: Reading, e: Event)
    requires !e.Enter? && e.key != "" && Agrees(f, r, e.key)
    requires forall i :: 0 <= i < |r.episodes| ==> r.episodes[i].key == e.key
    ensures Agrees(Step(f, e), ReadEvent(r, e), e.key)
  {
    if r.episodes == [] {
      NoneOn(f.open, e.key);
      NoneOn(f.out, e.key);
      return;
    }
    if r.open {
      OtherOnOpen(f, r, e);
    } else {
      OtherOnClosed(f, r, e);
    }
  }

  lemma AnnotationStep(f: Fold, e: Event, x: Episode, i: nat)
    requires e.key != "" && i == IndexOf(f.open, e.key) < |f.open|
    requires (e.Diagnosis? && x == Diagnosed(f.open[i], e)) || (e.Intervention? && x == Intervened(f.open[i], e))
    ensures Step(f, e) == f.(open := f.open[i := x])
  {
  }

  lemma DiagnosisOnOpen(f: Fold, r: Reading, e: Event)
    requires e.Diagnosis? && e.key != "" && Agrees(f, r, e.key) && r.episodes != [] && r.open
    requires r.episodes[|r.episodes| - 1].key == e.key
    ensures Agrees(Step(f, e), ReadEvent(r, e), e.key)
  {
    var i, last := IndexOf(f.open, e.key), |r.episodes| - 1;
    var x := Diagnosed(r.episodes[last], e);
    OpenReplaced(f, r, x);
    AnnotationStep(f, e, x, i);
    assert ReadEvent(r, e) == Reading(r.episodes[last := x], true);
  }

  lemma InterventionOnOpen(f: Fold, r: Reading, e: Event)
    requires e.Intervention? && e.key != "" && Agrees(f, r, e.key) && r.episodes != [] && r.open
    requires r.episodes[|r.episodes| - 1].key == e.key
    ensures Agrees(Step(f, e), ReadEvent(r, e), e.key)
  {
    var i, last := IndexOf(f.open, e.key), |r.episodes| - 1;
    var x := Intervened(r.episodes[last], e);
    OpenReplaced(f, r, x);
    AnnotationStep(f, e, x, i);
    assert ReadEvent(r, e) == Reading(r.episodes[last := x], true);
  }

  lemma ResolveOnOpen(f: Fold, r: Reading, e: Event)
    requires e.Resolve? && e.key != "" && Agrees(f, r, e.key) && r.episodes != [] && r.open
    requires r.episodes[|r.episodes| - 1].key == e.key
    ensures Agrees(Step(f, e), ReadEvent(r, e), e.key)
  {
    var i, last := IndexOf(f.open, e.key), |r.episodes| - 1;
    var x := Resolved(r.episodes[last], e);
    OpenReplaced(f, r, x);
    ResolveStep(f, e, x, i);
    assert ReadEvent(r, e) == Reading(r.episodes[last := x], false);
  }

  lemma ResolveStep(f: Fold, e: Event, x: Episode, i: nat)
    requires e.Resolve? && e.key != "" && i == IndexOf(f.open, e.key) < |f.open| && x == Resolved(f.open[i], e)
    ensures Step(f, e) == Fold(Without(f.open, i), f.out + [x])
  {
  }

  lemma OtherOnOpen(f: Fold, r: Reading, e: Event)
    requires !e.Enter? && e.key != "" && Agrees(f, r, e.key) && r.episodes != [] && r.open
    requires r.episodes[|r.episodes| - 1].key == e.key
    ensures Agrees(Step(f, e), ReadEvent(r, e), e.key)
  {
    if e.Diagnosis? {
      DiagnosisOnOpen(f, r, e);
    } else if e.Intervention? {
      InterventionOnOpen(f, r, e);
    } else if e.Resolve? {
      ResolveOnOpen(f, r, e);
    }
  }

  lemma OtherOnClosed(f: Fold, r: Reading, e: Event)
    requires !e.Enter? && e.key != "" && Agrees(f, r, e.key) && r.episodes != [] && !r.open
    requires r.episodes[|r.episodes| - 1].key == e.key
    ensures Agrees(Step(f, e), ReadEvent(r, e), e.key)
  {
    var ep := r.episodes[|r.episodes| - 1];
    match e
    case Intervention(_, _, _, _, _) => ClosedReplaced(f, r, Intervened(ep, e));
    case _ => NoneOn(f.open, e.key);
  }

  /** Through any key, the fold of the whole log is the reading of that key's own events. */
  lemma {:induction false} ReplayAgrees(log: seq<Event>, key: string)
    requires key != ""
    ensures Agrees(Replay(log), Read(EventsOf(log, key)), key)
  {
    if log == [] {
    } else {
      var init, e := log[..|log| - 1], log[|log| - 1];
      var own := EventsOf(init, key);
      ReplayAgrees(init, key);
      if e.key != key {
        StepElsewhere(Replay(init), e, key);
        assert EventsOf(log, key) == own;
      } else {
        EventsOfAreOfKey(init, key);
        ReadingHasKey(own, key);
        assert (own + [e])[..|own|] == own;
        if !e.Enter? {
          OtherHere(Replay(init), Read(own), e);
        } else if On(Replay(init).open, key) == [] {
          EnterFresh(Replay(init), Read(own), e);
        } else {
          EnterSupersedes(Replay(init), Read(own), e);
        }
      }
    }
  }

  // ── the final sort ─────────────────────────────────────────────────────────

  ghost predicate Sorted(eps: seq<Episode>) {
    forall i, j :: 0 <= i < j < |eps| ==> eps[i].enteredAt <= eps[j].enteredAt
  }

  lemma {:induction false} InsertKeepsMembers(x: Episode, ys: seq<Episode>)
    ensures multiset(Insert(x, ys)) == multiset{x} + multiset(ys)
    ensures forall z :: z in Insert(x, ys) ==> z == x || z in ys
  {
    if ys == [] || x.enteredAt <= ys[0].enteredAt {
    } else {
      InsertKeepsMembers(x, ys[1..]);
      assert ys == [ys[0]] + ys[1..];
    }
  }

  lemma {:induction false} InsertSorts(x: Episode, ys: seq<Episode>)
    requires Sorted(ys)
    ensures Sorted(Insert(x, ys))
  {
    if ys == [] || x.enteredAt <= ys[0].enteredAt {
    } else {
      var zs := Insert(x, ys[1..]);
      InsertSorts(x, ys[1..]);
      InsertKeepsMembers(x, ys[1..]);
      forall j | 0 <= j < |zs| ensures ys[0].enteredAt <= zs[j].enteredAt {
        assert zs[j] in zs;
      }
    }
  }

  /** The sort orders by entry time and loses nothing. */
  lemma {:induction false} SortByEntrySorts(eps: seq<Episode>)
    ensures Sorted(SortByEntry(eps))
    ensures multiset(SortByEntry(eps)) == multiset(eps)
    ensures |SortByEntry(eps)| == |eps|
  {
    if eps == [] {
    } else {
      SortByEntrySorts(eps[1..]);
      InsertSorts(eps[0], SortByEntry(eps[1..]));
      InsertKeepsMembers(eps[0], SortByEntry(eps[1..]));
      assert eps == [eps[0]] + eps[1..];
      assert |multiset(SortByEntry(eps))| == |SortByEntry(eps)|;
    }
  }

  lemma OnCons(x: Episode, ys: seq<Episode>, key: string)
    ensures On([x] + ys, key) == (if x.key == key then [x] else []) + On(ys, key)
  {
    assert ([x] + ys)[1..] == ys;
  }

  lemma {:induction false} OnInsert(x: Episode, ys: seq<Episode>, key: string)
    requires Sorted(ys)
    ensures On(Insert(x, ys), key) == if x.key == key then Insert(x, On(ys, key)) else On(ys, key)
  {
    if ys == [] || x.enteredAt <= ys[0].enteredAt {
      OnCons(x, ys, key);
      OnMembers(ys, key);
      if On(ys, key) != [] {
        assert On(ys, key)[0] in ys;
      }
    } else {
      var y, rest := ys[0], ys[1..];
      OnInsert(x, rest, key);
      OnCons(y, Insert(x, rest), key);
      OnCons(y, rest, key);
      assert ys == [y] + rest;
      if y.key == key {
        assert On(ys, key)[0] == y && On(ys, key)[1..] == On(rest, key);
      } else {
        assert [] + On(rest, key) == On(rest, key);
      }
    }
  }

  lemma {:induction false} OnMembers(eps: seq<Episode>, key: string)
    ensures forall x :: x in On(eps, key) ==> x in eps
  {
    if eps != [] {
      OnMembers(eps[1..], key);
    }
  }

  /** Stability: sorting commutes with looking through one key. */
  lemma {:induction false} OnSort(eps: seq<Episode>, key: string)
    ensures On(SortByEntry(eps), key) == SortByEntry(On(eps, key))
  {
    if eps != [] {
      var x, rest := eps[0], eps[1..];
      OnSort(rest, key);
      SortByEntrySorts(rest);
      OnInsert(x, SortByEntry(rest), key);
      assert eps == [x] + rest;
      OnCons(x, rest, key);
      if x.key == key {
        assert On(eps, key)[0] == x && On(eps, key)[1..] == On(rest, key);
      } else {
        assert On(eps, key) == On(rest, key);
      }
    }
  }

  // ── the main results ───────────────────────────────────────────────────────

  /** The episodes of `key` in any log are the reading of that key's own events, in entry order. */
  lemma EpisodesOfKey(log: seq<Event>, key: string)
    requires key != ""
    ensures On(Episodes(log), key) == SortByEntry(Read(EventsOf(log, key)).episodes)
  {
    var f := Replay(log);
    ReplayAgrees(log, key);
    OnSort(f.out + f.open, key);
    OnConcat(f.out, f.open, key);
  }

  lemma {:induction false} EventsOfIdempotent(log: seq<Event>, key: string)
    ensures EventsOf(EventsOf(log, key), key) == EventsOf(log, key)
  {
    if log == [] {
    } else {
      EventsOfIdempotent(log[..|log| - 1], key);
      var own, e := EventsOf(log[..|log| - 1], key), log[|log| - 1];
      if e.key == key {
        assert EventsOf(log, key) == own + [e] && (own + [e])[..|own|] == own;
      } else {
        assert EventsOf(log, key) == own;
      }
    }
  }

  ghost predicate OfKey(eps: seq<Episode>, key: string) {
    forall i :: 0 <= i < |eps| ==> eps[i].key == key
  }

  lemma StepStaysOnKey(f: Fold, e: Event)
    requires OfKey(f.open, e.key) && OfKey(f.out, e.key)
    ensures OfKey(Step(f, e).open, e.key) && OfKey(Step(f, e).out, e.key)
  {
  }

  lemma {:induction false} ReplayStaysOnKey(log: seq<Event>, key: string)
    requires forall i :: 0 <= i < |log| ==> log[i].key == key
    ensures OfKey(Replay(log).open, key) && OfKey(Replay(log).out, key)
  {
    if log != [] {
      ReplayStaysOnKey(log[..|log| - 1], key);
      StepStaysOnKey(Replay(log[..|log| - 1]), log[|log| - 1]);
    }
  }

  lemma {:induction false} EventsOfAreOfKey(log: seq<Event>, key: string)
    ensures forall i :: 0 <= i < |EventsOf(log, key)| ==> EventsOf(log, key)[i].key == key
  {
    if log != [] {
      EventsOfAreOfKey(log[..|log| - 1], key);
    }
  }

  /** Folding commutes with projection: the episodes of `key` are the episodes of `key`'s own log. */
  lemma EpisodesCommuteWithProjection(log: seq<Event>, key: string)
    requires key != ""
    ensures On(Episodes(log), key) == Episodes(EventsOf(log, key))
  {
    var own := EventsOf(log, key);
    EpisodesOfKey(log, key);
    EpisodesOfKey(own, key);
    EventsOfIdempotent(log, key);
    EventsOfAreOfKey(log, key);
    ReplayStaysOnKey(own, key);
    var all := Replay(own).out + Replay(own).open;
    OnAll(all, key);
    OnSort(all, key);
  }

  ghost predicate InTimeOrder(log: seq<Event>) {
    forall i, j :: 0 <= i < j < |log| ==> log[i].ts <= log[j].ts
  }

  lemma {:induction false} ReadingInEntryOrder(own: seq<Event>)
    requires InTimeOrder(own)
    ensures Sorted(Read(own).episodes)
    ensures forall i :: 0 <= i < |Read(own).episodes| ==>
              own != [] && Read(own).episodes[i].enteredAt <= own[|own| - 1].ts
  {
    if own != [] {
      var init := own[..|own| - 1];
      ReadingInEntryOrder(init);
      forall i | 0 <= i < |Read(init).episodes|
        ensures Read(init).episodes[i].enteredAt <= own[|own| - 1].ts
      {
        assert Read(init).episodes[i].enteredAt <= init[|init| - 1].ts <= own[|own| - 1].ts;
      }
    }
  }

  lemma {:induction false} SortOfSorted(eps: seq<Episode>)
    requires Sorted(eps)
    ensures SortByEntry(eps) == eps
  {
    if eps != [] {
      SortOfSorted(eps[1..]);
    }
  }

  lemma {:induction false} EventsOfKeepTimeOrder(log: seq<Event>, key: string)
    requires InTimeOrder(log)
    ensures InTimeOrder(EventsOf(log, key))
    ensures forall e :: e in EventsOf(log, key) ==> log != [] && e.ts <= log[|log| - 1].ts
  {
    if log != [] {
      var init, last := log[..|log| - 1], log[|log| - 1];
      EventsOfKeepTimeOrder(init, key);
      var own := EventsOf(init, key);
      forall e | e in own ensures e.ts <= last.ts {
        assert e.ts <= init[|init| - 1].ts <= last.ts;
      }
      assert EventsOf(log, key) == own || EventsOf(log, key) == own + [last];
    }
  }

  /** On a log in time order, which is what the reader hands out, the sort moves no episode of a key. */
  lemma EpisodesOfKeyInTimeOrder(log: seq<Event>, key: string)
    requires key != ""
    requires InTimeOrder(log)
    ensures On(Episodes(log), key) == Read(EventsOf(log, key)).episodes
  {
    EpisodesOfKey(log, key);
    EventsOfKeepTimeOrder(log, key);
    ReadingInEntryOrder(EventsOf(log, key));
    SortOfSorted(Read(EventsOf(log, key)).episodes);
  }

  function CountEnters(log: seq<Event>): nat {
    if log == [] then 0
    else CountEnters(log[..|log| - 1]) + (if log[|log| - 1].Enter? && log[|log| - 1].key != "" then 1 else 0)
  }

  lemma {:induction false} ReplayCounts(log: seq<Event>)
    ensures |Replay(log).out| + |Replay(log).open| == CountEnters(log)
  {
    if log != [] {
      ReplayCounts(log[..|log| - 1]);
    }
  }

  /** Conservation: one episode per `enter` that names a key, whatever else the log holds. */
  lemma OneEpisodePerEnter(log: seq<Event>)
    ensures |Episodes(log)| == CountEnters(log)
  {
    ReplayCounts(log);
    SortByEntrySorts(Replay(log).out + Replay(log).open);
  }
}
