/** Reading the stall log: the counts of `summarize` and the outcome buckets of `episode_bucket`. */
module StallReport {
  import opened Common
  import opened BlockLog
  import EpisodeFacts
  import Text

  datatype Bucket = AutoMechanism | AutoRescue | Human | Open

  const RESCUE_SOURCES := {"rescue", "rescue-agent"}

  /** `episode_bucket`. */
  function BucketOf(ep: Episode): Bucket {
    if !ep.resolved then Open
    else if HumanActed(ep) then Human
    else if ep.source in RESCUE_SOURCES then AutoRescue
    else AutoMechanism
  }

  /** `episode_category`. */
  function CategoryOf(ep: Episode): string {
    if Slug(ep.trueCause) == "" then "(unresolved)" else Slug(ep.trueCause)
  }

  function StateLabel(ep: Episode): string {
    if ep.state == "" then "?" else ep.state
  }

  function CountBucket(items: seq<Episode>, b: Bucket): nat {
    if items == [] then 0
    else CountBucket(items[..|items| - 1], b) + (if BucketOf(items[|items| - 1]) == b then 1 else 0)
  }

  /** Episodes a human acted on that carry at least one logged intervention. */
  function CountLogged(items: seq<Episode>): nat {
    if items == [] then 0
    else
      var x := items[|items| - 1];
      CountLogged(items[..|items| - 1]) + (if BucketOf(x) == Human && x.categories != [] then 1 else 0)
  }

  function CountState(items: seq<Episode>, s: string): nat {
    if items == [] then 0
    else CountState(items[..|items| - 1], s) + (if StateLabel(items[|items| - 1]) == s then 1 else 0)
  }

  function CountCause(items: seq<Episode>, s: string): nat {
    if items == [] then 0
    else CountCause(items[..|items| - 1], s) + (if CategoryOf(items[|items| - 1]) == s then 1 else 0)
  }

  // ── counters keyed by a label ──────────────────────────────────────────────

  /** The sum of all counts of a counter. */
  ghost function Total(m: map<string, nat>): nat
    decreases |m|
  {
    if m == map[] then 0 else
    var k :| k in m;
    m[k] + Total(m - {k})
  }

  lemma {:induction false} TotalSplits(m: map<string, nat>, k: string)
    requires k in m
    ensures Total(m) == m[k] + Total(m - {k})
    decreases |m|
  {
    var k' :| k' in m && Total(m) == m[k'] + Total(m - {k'});
    if k' != k {
      TotalSplits(m - {k'}, k);
      TotalSplits(m - {k}, k');
      assert m - {k'} - {k} == m - {k} - {k'};
    }
  }

  /** `counter[k] = counter.get(k, 0) + 1` */
  function Bump(m: map<string, nat>, k: string): map<string, nat> {
    m[k := if k in m then m[k] + 1 else 1]
  }

  lemma TotalBumps(m: map<string, nat>, k: string)
    ensures Total(Bump(m, k)) == Total(m) + 1
  {
    TotalSplits(Bump(m, k), k);
    assert Bump(m, k) - {k} == m - {k};
    if k in m {
      TotalSplits(m, k);
    } else {
      assert m - {k} == m;
    }
  }

  function At(m: map<string, nat>, k: string): nat {
    if k in m then m[k] else 0
  }

  // ── counting by a mark that an episode may have ───────────────────────────────

  function CountMark<T(==)>(items: seq<Episode>, mark: Episode -> Option<T>, k: T): nat {
    if items == [] then 0
    else CountMark(items[..|items| - 1], mark, k) + (if mark(items[|items| - 1]) == Some(k) then 1 else 0)
  }

  ghost predicate Counts<T(!new)>(m: map<T, nat>, items: seq<Episode>, mark: Episode -> Option<T>) {
    forall k :: (if k in m then m[k] else 0) == CountMark(items, mark, k)
  }

  function Tally<T>(m: map<T, nat>, mark: Option<T>): map<T, nat> {
    if mark == None then m else m[mark.value := if mark.value in m then m[mark.value] + 1 else 1]
  }

  lemma TallyCounts<T(!new)>(m: map<T, nat>, items: seq<Episode>, mark: Episode -> Option<T>, x: Episode)
    requires Counts(m, items, mark)
    ensures Counts(Tally(m, mark(x)), items + [x], mark)
  {
    assert (items + [x])[..|items|] == items;
  }

  /** The verdict on an episode's diagnosis, if it was diagnosed and has one. */
  function VerdictOf(ep: Episode): Option<string> {
    if ep.diagnosedCause != "" && ep.agreement != "" then Some(ep.agreement) else None
  }

  function RepoOf(key: string): string {
    if key == "" || key[0] == '#' then "" else [key[0]] + RepoOf(key[1..])
  }

  function WordLength(s: string): (n: nat)
    ensures n <= |s| && (s != "" && !Text.IsSpace(s[0]) ==> n > 0)
  {
    if s == "" || Text.IsSpace(s[0]) then 0 else 1 + WordLength(s[1..])
  }

  /** `" ".join(s.split())` */
  function Squeeze(s: string): string
    decreases |s|
  {
    var t := Text.TrimLeft(s);
    if t == "" then ""
    else
      var n := WordLength(t);
      var rest := Squeeze(t[n..]);
      t[..n] + (if rest == "" then "" else " " + rest)
  }

  /** The repository and the stated reason, cut at 60 characters; an episode without a reason repeats nothing. */
  function PairOf(ep: Episode): Option<(string, string)> {
    var words := Squeeze(ep.statedReason);
    var stated := if |words| > 60 then words[..60] else words;
    if stated == "" then None else Some((RepoOf(ep.key), stated))
  }

  // ── what makes two reasons the same ────────────────────────────────────────

  /** A word of a reason, with the white space in front of it. */
  datatype Spaced = Spaced(gap: string, word: string)

  predicate IsWord(s: string) {
    s != "" && forall i :: 0 <= i < |s| ==> !Text.IsSpace(s[i])
  }

  ghost predicate IsText(ws: seq<Spaced>) {
    && (forall w :: w in ws ==> Text.AllSpace(w.gap) && IsWord(w.word))
    && (forall i :: 0 < i < |ws| ==> ws[i].gap != "")
  }

  function Spread(ws: seq<Spaced>): string {
    if ws == [] then "" else ws[0].gap + (ws[0].word + Spread(ws[1..]))
  }

  function Joined(ws: seq<Spaced>): string {
    if ws == [] then "" else ws[0].word + (if ws[1..] == [] then "" else " " + Joined(ws[1..]))
  }

  lemma {:induction false} WordLengthOf(word: string, rest: string)
    requires (forall i :: 0 <= i < |word| ==> !Text.IsSpace(word[i])) && (rest == "" || Text.IsSpace(rest[0]))
    ensures WordLength(word + rest) == |word|
  {
    if word == "" {
      assert word + rest == rest;
    } else {
      assert (word + rest)[1..] == word[1..] + rest;
      WordLengthOf(word[1..], rest);
    }
  }

  lemma Regroup(a: string, b: string, c: string, d: string)
    ensures (a + (b + c)) + d == a + (b + (c + d))
  {
  }

  lemma SqueezeWord(w: Spaced, rest: string)
    requires Text.AllSpace(w.gap) && IsWord(w.word) && (rest == "" || Text.IsSpace(rest[0]))
    ensures Squeeze(w.gap + (w.word + rest)) == w.word + (if Squeeze(rest) == "" then "" else " " + Squeeze(rest))
  {
    Text.TrimLeftSkips(w.gap, w.word + rest);
    WordLengthOf(w.word, rest);
    assert (w.word + rest)[|w.word|..] == rest && (w.word + rest)[..|w.word|] == w.word;
  }

  lemma SqueezeNothing(pad: string)
    requires Text.AllSpace(pad)
    ensures Squeeze(pad) == ""
  {
    Text.TrimLeftSkips(pad, "");
    assert pad + "" == pad;
  }

  lemma SpreadStarts(ws: seq<Spaced>, trailing: string)
    requires IsText(ws) && Text.AllSpace(trailing) && (ws != [] ==> ws[0].gap != "")
    ensures var s := Spread(ws) + trailing; s == "" || Text.IsSpace(s[0])
  {
    if ws != [] {
      assert ws[0] in ws && (Spread(ws) + trailing)[0] == ws[0].gap[0];
    }
  }

  lemma JoinedSays(ws: seq<Spaced>)
    requires IsText(ws)
    ensures Joined(ws) == "" <==> ws == []
  {
    assert ws != [] ==> ws[0] in ws;
  }

  /** How a reason is spaced does not matter: it counts as its words, one space apart. */
  lemma {:induction false} SpacingDoesNotMatter(ws: seq<Spaced>, trailing: string)
    requires IsText(ws) && Text.AllSpace(trailing)
    ensures Squeeze(Spread(ws) + trailing) == Joined(ws)
  {
    if ws == [] {
      SqueezeNothing(trailing);
      assert Spread(ws) + trailing == trailing;
    } else {
      var w, more := ws[0], ws[1..];
      assert w in ws;
      Regroup(w.gap, w.word, Spread(more), trailing);
      MoreIsText(ws);
      SpreadStarts(more, trailing);
      SqueezeWord(w, Spread(more) + trailing);
      SpacingDoesNotMatter(more, trailing);
      JoinedSays(more);
    }
  }

  lemma MoreIsText(ws: seq<Spaced>)
    requires IsText(ws) && ws != []
    ensures IsText(ws[1..]) && (|ws| > 1 ==> ws[1..][0].gap != "")
  {
    assert forall w :: w in ws[1..] ==> w in ws;
    assert forall i :: 0 <= i < |ws[1..]| ==> ws[1..][i] == ws[i + 1];
  }

  lemma {:induction false} RepoInFront(repo: string, rest: string)
    requires '#' !in repo
    ensures RepoOf(repo + "#" + rest) == repo
  {
    if repo != "" {
      assert (repo + "#" + rest)[1..] == repo[1..] + "#" + rest;
      RepoInFront(repo[1..], rest);
    }
  }

  /**
   Two stalls repeat each other exactly when their repositories are the same and so are the first 60
   characters of what their reasons say, however spaced; and a blank reason repeats nothing.
   */
  lemma RepeatsWhenSame(a: Episode, b: Episode, repoA: string, repoB: string, atA: string, atB: string,
                        wa: seq<Spaced>, wb: seq<Spaced>)
    requires '#' !in repoA && '#' !in repoB && a.key == repoA + "#" + atA && b.key == repoB + "#" + atB
    requires IsText(wa) && IsText(wb) && a.statedReason == Spread(wa) && b.statedReason == Spread(wb)
    ensures var x, y := Joined(wa), Joined(wb);
            && (PairOf(a) == None <==> wa == [])
            && (wa != [] && wb != [] ==>
                  (PairOf(a) == PairOf(b) <==>
                    repoA == repoB && x[..if |x| > 60 then 60 else |x|] == y[..if |y| > 60 then 60 else |y|]))
  {
    RepoInFront(repoA, atA);
    RepoInFront(repoB, atB);
    SpacingDoesNotMatter(wa, "");
    SpacingDoesNotMatter(wb, "");
    assert Spread(wa) + "" == Spread(wa) && Spread(wb) + "" == Spread(wb);
    assert (wa != [] ==> wa[0] in wa) && (wb != [] ==> wb[0] in wb);
    var x, y := Joined(wa), Joined(wb);
    assert x[..|x|] == x && y[..|y|] == y;
  }

  function CountDiagnosed(items: seq<Episode>): nat {
    if items == [] then 0
    else CountDiagnosed(items[..|items| - 1]) + (if items[|items| - 1].diagnosedCause != "" then 1 else 0)
  }

  function CountContradicted(items: seq<Episode>): nat {
    if items == [] then 0
    else
      var x := items[|items| - 1];
      CountContradicted(items[..|items| - 1]) + (if x.diagnosedCause != "" && x.contradicts then 1 else 0)
  }

  /** No diagnosed episode has two verdicts. */
  lemma {:induction false} VerdictsAmongDiagnosed(items: seq<Episode>)
    ensures CountMark(items, VerdictOf, "agreed") + CountMark(items, VerdictOf, "disagreed")
          + CountMark(items, VerdictOf, "abstained") + CountMark(items, VerdictOf, "undecided") <= CountDiagnosed(items)
    ensures CountContradicted(items) <= CountDiagnosed(items)
  {
    if items != [] {
      VerdictsAmongDiagnosed(items[..|items| - 1]);
      assert "agreed" != "disagreed" && "agreed" != "abstained" && "agreed" != "undecided" by {
        assert "agreed"[1] == 'g' && "disagreed"[0] == 'd' && "abstained"[1] == 'b' && "undecided"[0] == 'u';
      }
      assert "disagreed" != "abstained" && "disagreed" != "undecided" && "abstained" != "undecided" by {
        assert "disagreed"[0] == 'd' && "abstained"[0] == 'a' && "undecided"[0] == 'u';
      }
    }
  }

  datatype Scoring = Scoring(
    diagnosed: nat, contradicted: nat, agreed: nat, disagreed: nat, abstained: nat, undecided: nat, rate: Option<real>)

  /** The score of the diagnoses: a rate of nothing out of nothing is no rate, and abstaining is outside it. */
  ghost predicate Scores(d: Scoring, items: seq<Episode>) {
    && d.diagnosed == CountDiagnosed(items) && d.contradicted == CountContradicted(items) <= d.diagnosed
    && d.agreed == CountMark(items, VerdictOf, "agreed") && d.disagreed == CountMark(items, VerdictOf, "disagreed")
    && d.abstained == CountMark(items, VerdictOf, "abstained") && d.undecided == CountMark(items, VerdictOf, "undecided")
    && d.agreed + d.disagreed + d.abstained + d.undecided <= d.diagnosed
    && IsRate(d.rate, d.agreed, d.disagreed)
  }

  ghost predicate IsRate(rate: Option<real>, agreed: nat, disagreed: nat) {
    && (rate == None <==> agreed == 0 && disagreed == 0)
    && (rate.Some? ==> rate.value * (agreed + disagreed) as real == disagreed as real)
  }

  /** A repository and reason repeat when they have stalled more than once. */
  ghost predicate RepeatsExactly(repeats: map<(string, string), nat>, items: seq<Episode>) {
    forall p :: (p in repeats <==> CountMark(items, PairOf, p) > 1)
             && (p in repeats ==> repeats[p] == CountMark(items, PairOf, p))
  }

  method Rate(agreed: nat, disagreed: nat) returns (rate: Option<real>)
    ensures IsRate(rate, agreed, disagreed)
  {
    var scored := agreed + disagreed;
    rate := if scored > 0 then Some(disagreed as real / scored as real) else None;
  }

  lemma CountedAt(m: map<string, nat>, items: seq<Episode>, k: string)
    requires Counts(m, items, VerdictOf)
    ensures At(m, k) == CountMark(items, VerdictOf, k)
  {
  }

  method Score(diagnosed: nat, contradicted: nat, verdicts: map<string, nat>, ghost items: seq<Episode>) returns (d: Scoring)
    requires diagnosed == CountDiagnosed(items) && contradicted == CountContradicted(items)
    requires Counts(verdicts, items, VerdictOf)
    ensures Scores(d, items)
  {
    VerdictsAmongDiagnosed(items);
    CountedAt(verdicts, items, "agreed");
    CountedAt(verdicts, items, "disagreed");
    CountedAt(verdicts, items, "abstained");
    CountedAt(verdicts, items, "undecided");
    var agreed, disagreed := At(verdicts, "agreed"), At(verdicts, "disagreed");
    var abstained, undecided := At(verdicts, "abstained"), At(verdicts, "undecided");
    var rate := Rate(agreed, disagreed);
    d := Scoring(diagnosed, contradicted, agreed, disagreed, abstained, undecided, rate);
  }

  // ── the report ─────────────────────────────────────────────────────────────

  datatype Summary = Summary(
    episodes: nat, byState: map<string, nat>, byCause: map<string, nat>,
    human: nat, humanLogged: nat, auto: nat, open: nat)

  datatype Report = Report(counts: Summary, repeats: map<(string, string), nat>, diagnosis: Scoring)

  /** Every total is the size of a bucket, and each view of the episodes conserves their number. */
  ghost predicate Accounts(s: Summary, items: seq<Episode>) {
    && s.episodes == |items| == s.human + s.auto + s.open
    && s.human == CountBucket(items, Human)
    && s.open == CountBucket(items, Open)
    && s.auto == CountBucket(items, AutoMechanism) + CountBucket(items, AutoRescue)
    && s.humanLogged == CountLogged(items) <= s.human
    && Total(s.byState) == |items| == Total(s.byCause)
    && (forall k :: At(s.byState, k) == CountState(items, k))
    && (forall k :: At(s.byCause, k) == CountCause(items, k))
  }

  predicate StillOpen(ep: Episode) {
    !ep.resolved
  }

  predicate ByHuman(ep: Episode) {
    ep.resolved && ep.humanActed == Some(true)
  }

  predicate ByItself(ep: Episode) {
    ep.resolved && ep.humanActed != Some(true)
  }

  function CountIf(items: seq<Episode>, p: Episode -> bool): nat {
    if items == [] then 0 else CountIf(items[..|items| - 1], p) + (if p(items[|items| - 1]) then 1 else 0)
  }

  function NamedState(ep: Episode): Option<string> {
    Some(ep.state)
  }

  /** The totals in terms of the episodes' own fields; an episode that names no state is counted under "?". */
  ghost predicate Totals(s: Summary, items: seq<Episode>) {
    && s.open == CountIf(items, StillOpen) && s.human == CountIf(items, ByHuman) && s.auto == CountIf(items, ByItself)
    && forall k :: At(s.byState, k) ==
         if k == "" then 0
         else if k == "?" then CountMark(items, NamedState, "") + CountMark(items, NamedState, "?")
         else CountMark(items, NamedState, k)
  }

  lemma {:induction false} StatesAreNamed(items: seq<Episode>, k: string)
    ensures CountState(items, k) ==
            if k == "" then 0
            else if k == "?" then CountMark(items, NamedState, "") + CountMark(items, NamedState, "?")
            else CountMark(items, NamedState, k)
  {
    if items != [] {
      StatesAreNamed(items[..|items| - 1], k);
    }
  }

  lemma {:induction false} BucketsAreTotals(items: seq<Episode>)
    ensures CountBucket(items, Open) == CountIf(items, StillOpen) && CountBucket(items, Human) == CountIf(items, ByHuman)
    ensures CountBucket(items, AutoMechanism) + CountBucket(items, AutoRescue) == CountIf(items, ByItself)
  {
    if items != [] {
      BucketsAreTotals(items[..|items| - 1]);
    }
  }

  lemma TotalsAreTold(s: Summary, items: seq<Episode>)
    requires Accounts(s, items)
    ensures Totals(s, items)
  {
    BucketsAreTotals(items);
    forall k ensures At(s.byState, k) ==
      if k == "" then 0
      else if k == "?" then CountMark(items, NamedState, "") + CountMark(items, NamedState, "?")
      else CountMark(items, NamedState, k)
    {
      assert At(s.byState, k) == CountState(items, k);
      StatesAreNamed(items, k);
    }
  }

  lemma {:induction false} OpenAreUnresolved(items: seq<Episode>)
    ensures CountIf(items, StillOpen) == EpisodeFacts.CountUnresolved(items)
  {
    if items != [] {
      var init, last := items[..|items| - 1], items[|items| - 1];
      OpenAreUnresolved(init);
      assert items == init + [last];
      EpisodeFacts.UnresolvedConcat(init, [last]);
      EpisodeFacts.UnresolvedOne(last);
    }
  }

  /** The cause an episode is counted under: the name in front of the dash, or that there is none yet. */
  lemma CategoryIsInFront(ep: Episode, name: string, note: string)
    requires '\U{2014}' !in name && (ep.trueCause == name || ep.trueCause == name + DASH + note)
    ensures CategoryOf(ep) == if name == "" then "(unresolved)" else name
  {
    EpisodeFacts.SlugIsInFront(name, note);
  }

  lemma CountsUnfold(items: seq<Episode>, x: Episode)
    ensures forall b :: CountBucket(items + [x], b) == CountBucket(items, b) + (if BucketOf(x) == b then 1 else 0)
    ensures CountLogged(items + [x])
         == CountLogged(items) + (if BucketOf(x) == Human && x.categories != [] then 1 else 0)
  {
    assert (items + [x])[..|items|] == items;
  }

  lemma StatesUnfold(m: map<string, nat>, items: seq<Episode>, x: Episode)
    requires forall k :: At(m, k) == CountState(items, k)
    ensures forall k :: At(Bump(m, StateLabel(x)), k) == CountState(items + [x], k)
  {
    assert (items + [x])[..|items|] == items;
    forall k ensures At(Bump(m, StateLabel(x)), k) == CountState(items + [x], k) {
      assert At(m, k) == CountState(items, k);
    }
  }

  lemma CausesUnfold(m: map<string, nat>, items: seq<Episode>, x: Episode)
    requires forall k :: At(m, k) == CountCause(items, k)
    ensures forall k :: At(Bump(m, CategoryOf(x)), k) == CountCause(items + [x], k)
  {
    assert (items + [x])[..|items|] == items;
    forall k ensures At(Bump(m, CategoryOf(x)), k) == CountCause(items + [x], k) {
      assert At(m, k) == CountCause(items, k);
    }
  }

  lemma AccountsFor(s: Summary, items: seq<Episode>, x: Episode)
    requires Accounts(s, items)
    ensures var b := BucketOf(x);
            Accounts(Summary(s.episodes + 1, Bump(s.byState, StateLabel(x)), Bump(s.byCause, CategoryOf(x)),
                             s.human + (if b == Human then 1 else 0),
                             s.humanLogged + (if b == Human && x.categories != [] then 1 else 0),
                             s.auto + (if b == AutoMechanism || b == AutoRescue then 1 else 0),
                             s.open + (if b == Open then 1 else 0)), items + [x])
  {
    CountsUnfold(items, x);
    StatesUnfold(s.byState, items, x);
    CausesUnfold(s.byCause, items, x);
    TotalBumps(s.byState, StateLabel(x));
    TotalBumps(s.byCause, CategoryOf(x));
  }

  lemma DiagnosedUnfold(items: seq<Episode>, x: Episode)
    ensures CountDiagnosed(items + [x]) == CountDiagnosed(items) + (if x.diagnosedCause != "" then 1 else 0)
    ensures CountContradicted(items + [x])
         == CountContradicted(items) + (if x.diagnosedCause != "" && x.contradicts then 1 else 0)
  {
    assert (items + [x])[..|items|] == items;
  }

  /** The sums of the loop in `summarize`. */
  datatype Sums = Sums(
    counts: Summary, seen: map<(string, string), nat>, verdicts: map<string, nat>, diagnosed: nat, contradicted: nat)

  ghost predicate SumUp(a: Sums, items: seq<Episode>) {
    && Accounts(a.counts, items)
    && a.diagnosed == CountDiagnosed(items) && a.contradicted == CountContradicted(items)
    && Counts(a.verdicts, items, VerdictOf) && Counts(a.seen, items, PairOf)
  }

  method CountDiagnosis(a: Sums, item: Episode, ghost items: seq<Episode>) returns (diagnosed: nat, contradicted: nat, verdicts: map<string, nat>)
    requires SumUp(a, items)
    ensures diagnosed == CountDiagnosed(items + [item]) && contradicted == CountContradicted(items + [item])
    ensures Counts(verdicts, items + [item], VerdictOf)
  {
    DiagnosedUnfold(items, item);
    TallyCounts(a.verdicts, items, VerdictOf, item);
    diagnosed, contradicted, verdicts := a.diagnosed, a.contradicted, a.verdicts;
    if item.diagnosedCause != "" {
      diagnosed := diagnosed + 1;
      if item.contradicts {
        contradicted := contradicted + 1;
      }
      if item.agreement != "" {
        verdicts := Tally(verdicts, Some(item.agreement));
      }
    }
  }

  method CountRelease(s: Summary, item: Episode, ghost items: seq<Episode>) returns (t: Summary)
    requires Accounts(s, items)
    ensures Accounts(t, items + [item])
  {
    AccountsFor(s, items, item);
    var human, logged, auto, stillOpen := s.human, s.humanLogged, s.auto, s.open;
    if !item.resolved {
      stillOpen := stillOpen + 1;
    } else if HumanActed(item) {
      human := human + 1;
      if item.categories != [] {
        logged := logged + 1;
      }
    } else {
      auto := auto + 1;
    }
    t := Summary(s.episodes + 1, Bump(s.byState, StateLabel(item)), Bump(s.byCause, CategoryOf(item)),
                 human, logged, auto, stillOpen);
  }

  /** One turn of the loop. */
  method CountEpisode(a: Sums, item: Episode, ghost items: seq<Episode>) returns (b: Sums)
    requires SumUp(a, items)
    ensures SumUp(b, items + [item])
  {
    TallyCounts(a.seen, items, PairOf, item);
    var diagnosed, contradicted, verdicts := CountDiagnosis(a, item, items);
    var counts := CountRelease(a.counts, item, items);
    b := Sums(counts, Tally(a.seen, PairOf(item)), verdicts, diagnosed, contradicted);
  }

  /** `summarize` */
  method Summarize(items: seq<Episode>) returns (r: Report)
    ensures Accounts(r.counts, items) && Scores(r.diagnosis, items) && RepeatsExactly(r.repeats, items)
    ensures Totals(r.counts, items)
  {
    var a := Sums(Summary(0, map[], map[], 0, 0, 0, 0), map[], map[], 0, 0);
    for n := 0 to |items|
      invariant SumUp(a, items[..n])
    {
      assert items[..n + 1] == items[..n] + [items[n]];
      a := CountEpisode(a, items[n], items[..n]);
    }
    assert items[..|items|] == items;
    var repeats := map p | p in a.seen && a.seen[p] > 1 :: a.seen[p];
    var d := Score(a.diagnosed, a.contradicted, a.verdicts, items);
    r := Report(a.counts, repeats, d);
    TotalsAreTold(r.counts, items);
  }

  /**
   End to end: the report over a log accounts for every `enter` that names a key, exactly once, and
   calls open what no `resolve` has released.
   */
  method SummarizeLog(log: seq<Event>) returns (r: Report)
    ensures var s := r.counts; s.human + s.auto + s.open == Total(s.byState) == Total(s.byCause) == CountEnters(log)
    ensures r.counts.open == CountEnters(log) - EpisodeFacts.CountReleases(log)
    ensures r.counts.human + r.counts.auto == EpisodeFacts.CountReleases(log)
    ensures Accounts(r.counts, Episodes(log)) && Totals(r.counts, Episodes(log))
    ensures Scores(r.diagnosis, Episodes(log)) && RepeatsExactly(r.repeats, Episodes(log))
  {
    var eps := FoldEpisodes(log);
    OneEpisodePerEnter(log);
    EpisodeFacts.UnresolvedAreEntersLessReleases(log);
    OpenAreUnresolved(eps);
    r := Summarize(eps);
  }

  // ── what an intervention guarantees ────────────────────────────────────────

  lemma {:induction false} InterventionSticks(own: seq<Event>, more: seq<Event>)
    requires own != [] && own[|own| - 1].Intervention?
    requires Read(own).episodes != []
    requires forall i :: 0 <= i < |more| ==> !more[i].Enter?
    ensures |Read(own + more).episodes| == |Read(own).episodes|
    ensures HumanActed(Read(own + more).episodes[|Read(own).episodes| - 1])
  {
    if more == [] {
      assert own + more == own;
      assert own == own[..|own| - 1] + [own[|own| - 1]];
    } else {
      var init := more[..|more| - 1];
      assert (own + more)[..|own + more| - 1] == own + init;
      InterventionSticks(own, init);
    }
  }
}
