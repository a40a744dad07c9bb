/**
 The blue/green install protocol of `coord/agent_update.py`.

 `Next` is the protocol as a state machine: one update or rollback at a time, with processes
 starting (always through the link) and exiting between any two of its steps.  The class
 `Install` runs `perform_update` and `rollback` step by step and logs the actions it takes, so
 everything proved about runs of the machine holds of the methods.
 */
module AgentUpdate {
  import opened Common

  /** A path as it is spelled; `World.at` resolves it to the directory it names. */
  type Path = string
  type Dir = string

  datatype World = World(blue: Path, green: Path, at: Path -> Dir)

  /** What stands in a directory: an install that boots, or any leftovers that do not. */
  datatype Content = Partial | Complete(version: string)

  /** A running process: the directory it executes from, and the version it found there at its start. */
  datatype Proc = Proc(dir: Dir, version: string)

  datatype Phase = Idle | Migrating | Updating(slot: Path, passed: bool) | RollingBack(slot: Path, passed: bool)

  /** `link` is None while `venv_dir` is a plain directory (`plain`) or does not exist. */
  datatype State = State(
    link: Option<Path>, plain: Option<Content>, dirs: map<Dir, Content>, procs: map<nat, Proc>, phase: Phase)

  datatype Action =
    | Spawn(pid: nat)
    | Exit(pid: nat)
    | RenamePlain
    | MakeLink
    | Aim(caller: Option<Path>, seen: set<nat>)
    | Rewrite(content: Option<Content>)
    | AimBack
    | Check
    | Swap
    | Stop

  /** `_same_path` */
  predicate SamePath(w: World, a: Path, b: Path) {
    a == b || w.at(a) == w.at(b)
  }

  function OtherSlot(w: World, active: Path): Path {
    if SamePath(w, active, w.blue) then w.green else w.blue
  }

  function Holders(s: State, d: Dir): set<nat> {
    set pid | pid in s.procs && s.procs[pid].dir == d
  }

  /** The three refusals of `perform_update`. */
  predicate MayRebuild(w: World, active: Path, caller: Option<Path>, seen: set<nat>) {
    var next := OtherSlot(w, active);
    !SamePath(w, next, active) && !(caller.Some? && SamePath(w, caller.value, next)) && seen == {}
  }

  predicate Boots(s: State, d: Dir) {
    d in s.dirs && s.dirs[d].Complete?
  }

  /** One atomic step; None when the step is not possible in this state. */
  function Next(w: World, s: State, a: Action): Option<State> {
    match a
    case Spawn(pid) =>
      if s.link.Some? && Boots(s, w.at(s.link.value)) && pid !in s.procs then
        var d := w.at(s.link.value);
        Some(s.(procs := s.procs[pid := Proc(d, s.dirs[d].version)]))
      else None
    case Exit(pid) =>
      if pid in s.procs then Some(s.(procs := s.procs - {pid})) else None
    case RenamePlain =>
      if s.phase == Idle && s.link == None && s.plain.Some? && w.at(w.blue) !in s.dirs then
        Some(s.(plain := None, dirs := s.dirs[w.at(w.blue) := s.plain.value], phase := Migrating))
      else None
    case MakeLink =>
      if s.phase == Migrating then Some(s.(link := Some(w.blue), phase := Idle)) else None
    case Aim(caller, seen) =>
      if s.phase == Idle && s.link.Some? && seen <= Holders(s, w.at(OtherSlot(w, s.link.value)))
         && MayRebuild(w, s.link.value, caller, seen)
      then Some(s.(phase := Updating(OtherSlot(w, s.link.value), false)))
      else None
    case Rewrite(content) =>
      if s.phase.Updating? then
        var d := w.at(s.phase.slot);
        Some(s.(dirs := if content.Some? then s.dirs[d := content.value] else s.dirs - {d},
                phase := Updating(s.phase.slot, false)))
      else None
    case AimBack =>
      if s.phase == Idle && s.link.Some? && w.at(OtherSlot(w, s.link.value)) in s.dirs
      then Some(s.(phase := RollingBack(OtherSlot(w, s.link.value), false)))
      else None
    case Check =>
      if s.phase.Updating? && Boots(s, w.at(s.phase.slot)) then Some(s.(phase := Updating(s.phase.slot, true)))
      else if s.phase.RollingBack? && Boots(s, w.at(s.phase.slot)) then Some(s.(phase := RollingBack(s.phase.slot, true)))
      else None
    case Swap =>
      if (s.phase.Updating? || s.phase.RollingBack?) && s.phase.passed
      then Some(s.(link := Some(s.phase.slot), phase := Idle))
      else None
    case Stop =>
      if s.phase.Updating? || s.phase.RollingBack? then Some(s.(phase := Idle)) else None
  }

  function Execute(w: World, s: State, log: seq<Action>): Option<State>
    decreases |log|
  {
    if log == [] then Some(s)
    else if Next(w, s, log[0]) == None then None
    else Execute(w, Next(w, s, log[0]).value, log[1..])
  }

  /** The `/proc` scan of this step showed every process that runs from the slot. */
  predicate Sighted(w: World, s: State, a: Action) {
    a.Aim? && s.link.Some? ==> Holders(s, w.at(OtherSlot(w, s.link.value))) <= a.seen
  }

  predicate AllSighted(w: World, s: State, log: seq<Action>)
    decreases |log|
  {
    log == [] ||
    (Sighted(w, s, log[0]) &&
     (Next(w, s, log[0]).Some? ==> AllSighted(w, Next(w, s, log[0]).value, log[1..])))
  }

  // ── what every run keeps ───────────────────────────────────────────────────

  /** Every process still finds in its directory the version it was started from. */
  predicate Intact(s: State) {
    forall pid :: pid in s.procs ==>
      s.procs[pid].dir in s.dirs && s.dirs[s.procs[pid].dir] == Complete(s.procs[pid].version)
  }

  predicate LinkBoots(w: World, s: State) {
    s.link.Some? ==> Boots(s, w.at(s.link.value))
  }

  /** The slot under construction is not the live one, and nothing runs from it. */
  predicate Apart(w: World, s: State) {
    s.phase.Updating? ==>
      s.link.Some? && w.at(s.phase.slot) != w.at(s.link.value) && Holders(s, w.at(s.phase.slot)) == {}
  }

  predicate Safe(w: World, s: State) {
    && LinkBoots(w, s) && Intact(s) && Apart(w, s)
    && (s.plain.Some? ==> s.link == None && s.plain.value.Complete?)
    && (s.phase == Migrating ==> s.link == None && s.plain == None && Boots(s, w.at(w.blue)))
    && ((s.phase.Updating? || s.phase.RollingBack?) ==>
          s.link.Some? && (s.phase.passed ==> Boots(s, w.at(s.phase.slot))))
  }

  lemma SpawnKeepsSafe(w: World, s: State, pid: nat)
    requires Safe(w, s) && Next(w, s, Spawn(pid)).Some?
    ensures Safe(w, Next(w, s, Spawn(pid)).value)
  {
    var t := Next(w, s, Spawn(pid)).value;
    if s.phase.Updating? {
      var d := w.at(s.phase.slot);
      assert forall p :: p in Holders(t, d) ==> p in Holders(s, d);
    }
  }

  lemma ExitKeepsSafe(w: World, s: State, pid: nat)
    requires Safe(w, s) && Next(w, s, Exit(pid)).Some?
    ensures Safe(w, Next(w, s, Exit(pid)).value)
  {
    var t := Next(w, s, Exit(pid)).value;
    if s.phase.Updating? {
      var d := w.at(s.phase.slot);
      assert forall p :: p in Holders(t, d) ==> p in Holders(s, d);
    }
  }

  lemma RewriteKeepsSafe(w: World, s: State, content: Option<Content>)
    requires Safe(w, s) && s.phase.Updating?
    ensures Safe(w, Next(w, s, Rewrite(content)).value)
  {
    var t := Next(w, s, Rewrite(content)).value;
    var d := w.at(s.phase.slot);
    assert Holders(t, d) == Holders(s, d);
    forall pid | pid in t.procs ensures t.procs[pid].dir in t.dirs && t.dirs[t.procs[pid].dir] == s.dirs[s.procs[pid].dir] {
      assert pid !in Holders(s, d);
    }
  }

  lemma NextKeepsSafe(w: World, s: State, a: Action)
    requires Safe(w, s) && Next(w, s, a).Some? && Sighted(w, s, a)
    ensures Safe(w, Next(w, s, a).value)
  {
    match a
    case Spawn(pid) => SpawnKeepsSafe(w, s, pid);
    case Exit(pid) => ExitKeepsSafe(w, s, pid);
    case Rewrite(content) => RewriteKeepsSafe(w, s, content);
    case _ =>
  }

  /** Safety over every run. */
  lemma {:induction false} EveryRunIsSafe(w: World, s: State, log: seq<Action>)
    requires Safe(w, s) && Execute(w, s, log).Some? && AllSighted(w, s, log)
    ensures Safe(w, Execute(w, s, log).value)
    decreases |log|
  {
    if log != [] {
      NextKeepsSafe(w, s, log[0]);
      EveryRunIsSafe(w, Next(w, s, log[0]).value, log[1..]);
    }
  }

  lemma {:induction false} ExecuteConcat(w: World, s: State, a: seq<Action>, b: seq<Action>)
    ensures Execute(w, s, a + b)
         == match Execute(w, s, a) case None => None case Some(t) => Execute(w, t, b)
    ensures Execute(w, s, a).Some? ==>
              (AllSighted(w, s, a + b) <==> AllSighted(w, s, a) && AllSighted(w, Execute(w, s, a).value, b))
    decreases |a|
  {
    if a == [] {
      assert a + b == b;
    } else {
      assert (a + b)[1..] == a[1..] + b;
      if Next(w, s, a[0]).Some? {
        ExecuteConcat(w, Next(w, s, a[0]).value, a[1..], b);
      }
    }
  }

  /** At every deletion or rebuild of a run: the directory is not the live one and has no process. */
  lemma RewritesAreApart(w: World, s: State, before: seq<Action>, content: Option<Content>, rest: seq<Action>)
    requires Safe(w, s) && Execute(w, s, before + ([Rewrite(content)] + rest)).Some?
    requires AllSighted(w, s, before + ([Rewrite(content)] + rest))
    ensures Execute(w, s, before).Some?
    ensures var t := Execute(w, s, before).value;
            && t.phase.Updating? && t.link.Some? && w.at(t.phase.slot) != w.at(t.link.value)
            && (forall pid :: pid in t.procs ==> t.procs[pid].dir != w.at(t.phase.slot))
  {
    ExecuteConcat(w, s, before, [Rewrite(content)] + rest);
    EveryRunIsSafe(w, s, before);
    var t := Execute(w, s, before).value;
    assert ([Rewrite(content)] + rest)[0] == Rewrite(content);
    forall pid | pid in t.procs ensures t.procs[pid].dir != w.at(t.phase.slot) {
      assert pid !in Holders(t, w.at(t.phase.slot));
    }
  }

  /** Who asked for the update that is under way: the caller of the latest `Aim`. */
  function Caller(log: seq<Action>): Option<Path> {
    if log == [] then None
    else if log[|log| - 1].Aim? then log[|log| - 1].caller
    else Caller(log[..|log| - 1])
  }

  lemma {:induction false} UpdatesSpareTheCaller(w: World, s: State, log: seq<Action>)
    requires s.phase == Idle && Execute(w, s, log).Some?
    ensures var t := Execute(w, s, log).value;
            t.phase.Updating? && Caller(log).Some? ==> w.at(t.phase.slot) != w.at(Caller(log).value)
    decreases |log|
  {
    if log != [] {
      var before, a := log[..|log| - 1], log[|log| - 1];
      assert log == before + [a];
      ExecuteConcat(w, s, before, [a]);
      assert [a][1..] == [];
      UpdatesSpareTheCaller(w, s, before);
    }
  }

  /**
   At every deletion or rebuild of any run, whatever the scans showed: what is rewritten is a single
   directory, and not the one the calling interpreter lives in.
   */
  lemma RewritesSpareTheCaller(w: World, s: State, before: seq<Action>, content: Option<Content>)
    requires s.phase == Idle && Execute(w, s, before + [Rewrite(content)]).Some?
    ensures Execute(w, s, before).Some?
    ensures var t, u := Execute(w, s, before).value, Execute(w, s, before + [Rewrite(content)]).value;
            && t.phase.Updating?
            && (Caller(before).Some? ==> w.at(t.phase.slot) != w.at(Caller(before).value))
            && (forall d :: d != w.at(t.phase.slot) ==> (d in u.dirs <==> d in t.dirs) && (d in t.dirs ==> u.dirs[d] == t.dirs[d]))
  {
    ExecuteConcat(w, s, before, [Rewrite(content)]);
    assert [Rewrite(content)][1..] == [];
    UpdatesSpareTheCaller(w, s, before);
  }

  /** The other slot is the other one: never the live directory, when the two slots are two directories. */
  lemma OtherSlotIsOther(w: World, active: Path)
    requires w.at(w.blue) != w.at(w.green)
    ensures var next := OtherSlot(w, active);
            && w.at(next) != w.at(active)
            && (w.at(active) == w.at(w.blue) ==> next == w.green)
            && (w.at(active) == w.at(w.green) ==> next == w.blue)
  {
  }

  /** The reasons for which an update may be refused in state `s`: there is nothing apart to build in, or somebody runs from it. */
  ghost predicate Excused(w: World, s: State, active: Path, caller: Option<Path>) {
    var d := w.at(OtherSlot(w, active));
    NothingApart(w, active, caller) || exists pid :: pid in s.procs && s.procs[pid].dir == d
  }

  /** The slot to build in is the live directory, or the one the caller lives in. */
  ghost predicate NothingApart(w: World, active: Path, caller: Option<Path>) {
    var d := w.at(OtherSlot(w, active));
    d == w.at(active) || (caller.Some? && d == w.at(caller.value))
  }

  predicate MovesNoLink(log: seq<Action>) {
    forall i :: 0 <= i < |log| ==> !log[i].Swap? && !log[i].MakeLink?
  }

  /** `after` continues `before` without moving the link. */
  predicate Quiet(before: seq<Action>, after: seq<Action>) {
    before <= after && forall i :: |before| <= i < |after| ==> !after[i].Swap? && !after[i].MakeLink?
  }

  /** The link, and the install it names, are in `t` what they were in `s`. */
  predicate LiveAsIn(w: World, s: State, t: State) {
    && t.link == s.link
    && (s.link.Some? ==>
          var live := w.at(s.link.value);
          live in s.dirs && live in t.dirs && t.dirs[live] == s.dirs[live])
  }

  /** Whatever an update did: until it swaps, the link and the live install are what they were. */
  lemma {:induction false} UntilTheSwapNothingChanges(w: World, s: State, log: seq<Action>)
    requires Safe(w, s) && s.link.Some? && Execute(w, s, log).Some? && AllSighted(w, s, log) && MovesNoLink(log)
    ensures LiveAsIn(w, s, Execute(w, s, log).value)
    decreases |log|
  {
    if log != [] {
      NextKeepsSafe(w, s, log[0]);
      UntilTheSwapNothingChanges(w, Next(w, s, log[0]).value, log[1..]);
    }
  }

  /** Once there is a link there always is one. */
  lemma {:induction false} LinkStays(w: World, s: State, log: seq<Action>)
    requires Safe(w, s) && s.link.Some? && Execute(w, s, log).Some? && AllSighted(w, s, log)
    ensures Execute(w, s, log).value.link.Some?
    decreases |log|
  {
    if log != [] {
      NextKeepsSafe(w, s, log[0]);
      LinkStays(w, Next(w, s, log[0]).value, log[1..]);
    }
  }

  /** `passed` on its own terms: the last word on the slot was a passed check, in this same operation. */
  function LastWord(log: seq<Action>): Option<Action> {
    if log == [] then None
    else
      var a := log[|log| - 1];
      if a.Spawn? || a.Exit? then LastWord(log[..|log| - 1]) else Some(a)
  }

  /**
   In every run: a step that moves an existing link is a swap onto a slot that boots, and the last
   thing done about that slot was a passed check.
   */
  lemma LinkMovesOntoCheckedSlot(w: World, s: State, before: seq<Action>, a: Action)
    requires Safe(w, s) && s.phase == Idle && AllSighted(w, s, before)
    requires Execute(w, s, before).Some? && Next(w, Execute(w, s, before).value, a).Some?
    requires var t := Execute(w, s, before).value; t.link.Some? && Next(w, t, a).value.link != t.link
    ensures a == Swap && LastWord(before) == Some(Check)
    ensures var t := Execute(w, s, before).value;
            var u := Next(w, t, a).value;
            u.link.Some? && Boots(u, w.at(u.link.value))
  {
    EveryRunIsSafe(w, s, before);
    PassedMeansChecked(w, s, before);
  }

  lemma {:induction false} PassedMeansChecked(w: World, s: State, log: seq<Action>)
    requires s.phase == Idle && Execute(w, s, log).Some?
    ensures var p := Execute(w, s, log).value.phase;
            (p.Updating? || p.RollingBack?) && p.passed ==> LastWord(log) == Some(Check)
    decreases |log|
  {
    if log != [] {
      var before, a := log[..|log| - 1], log[|log| - 1];
      assert log == before + [a];
      ExecuteConcat(w, s, before, [a]);
      assert [a][1..] == [];
      PassedMeansChecked(w, s, before);
    }
  }

  // ── exactly when the scan matters ──────────────────────────────────────────

  /** Whatever happens from here on, no process loses the code it runs. */
  ghost predicate Harmless(w: World, s: State) {
    forall log :: Execute(w, s, log).Some? && AllSighted(w, s, log) ==> Intact(Execute(w, s, log).value)
  }

  /**
   An update that got past its checks is harmless if and only if no process was running from the
   slot when it looked: a holder the scan did not show is lost with the first deletion.
   */
  lemma HarmlessIffNoHiddenHolder(w: World, s: State, caller: Option<Path>, seen: set<nat>)
    requires Safe(w, s) && Next(w, s, Aim(caller, seen)).Some?
    ensures Harmless(w, Next(w, s, Aim(caller, seen)).value)
       <==> Holders(s, w.at(OtherSlot(w, s.link.value))) == {}
  {
    var t := Next(w, s, Aim(caller, seen)).value;
    var d := w.at(t.phase.slot);
    assert Holders(t, d) == Holders(s, d);
    if Holders(s, d) == {} {
      forall log | Execute(w, t, log).Some? && AllSighted(w, t, log) ensures Intact(Execute(w, t, log).value) {
        EveryRunIsSafe(w, t, log);
      }
    } else {
      var pid :| pid in Holders(s, d);
      DeletionLoses(w, t, pid);
    }
  }

  lemma DeletionLoses(w: World, t: State, pid: nat)
    requires t.phase.Updating? && pid in Holders(t, w.at(t.phase.slot))
    ensures !Harmless(w, t)
  {
    var log := [Rewrite(None)];
    assert log[1..] == [];
    var u := Next(w, t, Rewrite(None)).value;
    assert pid in u.procs && u.procs[pid].dir !in u.dirs;
    assert Execute(w, t, log) == Some(u) && AllSighted(w, t, log);
  }

  // ── the operations, step by step ───────────────────────────────────────────

  /** How a subprocess ended: with exit code 0, with another one or a timeout, or it could not be started. */
  datatype Outcome = Fine | Bad | Exception

  /** What the outside world does to one update. */
  datatype Job = Job(venv: Outcome, pip: Outcome, installed: Content, answers: bool) {
    function Installs(): Option<string> {
      if venv == Fine && pip == Fine && answers && installed.Complete? then Some(installed.version) else None
    }

    predicate Raises() {
      venv == Exception || (venv == Fine && pip == Exception)
    }
  }

  datatype UpdateResult =
    | Swapped(slot: Path, previous: Path, version: string)
    | Refused
    | Failed
    | Raised

  /**
   What an update that was not refused reports: success exactly when both subprocesses ended well
   and what they installed boots and answers; an exception when one of those that ran raised it.
   */
  ghost predicate Reports(r: UpdateResult, job: Job) {
    && (r.Swapped? <==> job.venv == Fine && job.pip == Fine && job.installed.Complete? && job.answers)
    && (r.Swapped? ==> job.installed == Complete(r.version))
    && (r == Raised <==> job.venv == Exception || (job.venv == Fine && job.pip == Exception))
  }

  class Install {
    const w: World
    /** Whether `/proc` can be read in full. */
    const visible: bool
    var link: Option<Path>
    var plain: Option<Content>
    var dirs: map<Dir, Content>
    var procs: map<nat, Proc>
    ghost var phase: Phase
    ghost var first: State
    ghost var log: seq<Action>

    ghost function Now(): State
      reads this
    {
      State(link, plain, dirs, procs, phase)
    }

    /** The fields are where a run of the protocol from a safe state has led. */
    ghost predicate Valid()
      reads this
    {
      && Safe(w, first)
      && Execute(w, first, log) == Some(Now())
      && (visible ==> AllSighted(w, first, log))
    }

    constructor (w: World, visible: bool, s: State)
      requires Safe(w, s) && s.phase == Idle
      ensures Valid() && this.w == w && this.visible == visible && Now() == s && log == []
    {
      this.w, this.visible := w, visible;
      link, plain, dirs, procs := s.link, s.plain, s.dirs, s.procs;
      phase, first, log := Idle, s, [];
    }

    /** Logs a step the fields have just made. */
    ghost method Record(was: State, a: Action)
      requires Safe(w, first) && Execute(w, first, log) == Some(was) && (visible ==> AllSighted(w, first, log))
      requires Next(w, was, a) == Some(Now()) && (visible ==> Sighted(w, was, a))
      modifies this`log
      ensures Valid() && log == old(log) + [a]
    {
      assert [a][1..] == [];
      ExecuteConcat(w, first, log, [a]);
      log := log + [a];
    }

    /** Other processes start through the link and exit, any number of them. */
    method Others()
      requires Valid()
      modifies this`procs, this`log
      ensures Valid() && Quiet(old(log), log)
      ensures link == None ==> procs.Keys <= old(procs).Keys
    {
      var turns :| turns >= 0;
      for turn := 0 to turns
        invariant Valid() && Quiet(old(log), log)
        invariant link == None ==> procs.Keys <= old(procs).Keys
      {
        var pid: nat, starts: bool := *, *;
        ghost var was := Now();
        if starts && pid !in procs && link.Some? && w.at(link.value) in dirs && dirs[w.at(link.value)].Complete? {
          procs := procs[pid := Proc(w.at(link.value), dirs[w.at(link.value)].version)];
          Record(was, Spawn(pid));
        } else if !starts && pid in procs {
          procs := procs - {pid};
          Record(was, Exit(pid));
        }
      }
    }

    /** `ensure_symlink_layout`; None is a raised setup error. */
    method EnsureSymlinkLayout() returns (active: Option<Path>)
      requires Valid() && phase == Idle
      modifies this
      ensures Valid() && first == old(first) && old(log) <= log && phase == Idle
      ensures old(link).Some? ==> active == old(link) && log == old(log)
      ensures active.Some? ==> link == active
      ensures active == None ==> Now() == old(Now())
      ensures old(link) == None ==>
                (active.Some? <==> old(plain).Some? && w.at(w.blue) !in old(dirs)) && (active.Some? ==> active == Some(w.blue))
      ensures active == None ==> link == None && log == old(log)
      ensures active.Some? && old(link) == None ==> dirs == old(dirs)[w.at(w.blue) := old(plain).value]
    {
      if link.Some? {
        return link;
      }
      if plain == None {
        return None;
      }
      if w.at(w.blue) in dirs {
        return None;
      }
      ghost var was := Now();
      dirs, plain := dirs[w.at(w.blue) := plain.value], None;
      phase := Migrating;
      Record(was, RenamePlain);
      Others();
      was := Now();
      link, phase := Some(w.blue), Idle;
      Record(was, MakeLink);
      return link;
    }

    /** `processes_holding_slot`: everything that runs from the slot, or whatever a blind scan shows. */
    method ProcessesHoldingSlot(slot: Path) returns (seen: set<nat>)
      ensures seen <= Holders(Now(), w.at(slot))
      ensures visible ==> seen == Holders(Now(), w.at(slot))
    {
      seen := set pid | pid in procs && procs[pid].dir == w.at(slot);
      if !visible {
        var shown: set<nat> := *;
        seen := seen * shown;
      }
    }

    /** `shutil.rmtree(slot, ignore_errors=True)`: the slot may survive in part. */
    method RemoveTree(slot: Path)
      requires Valid() && phase.Updating? && phase.slot == slot
      modifies this`dirs, this`phase, this`log
      ensures Valid() && phase == Updating(slot, false) && Quiet(old(log), log)
      ensures !Boots(Now(), w.at(slot))
    {
      ghost var was := Now();
      var leftover: bool := *;
      if leftover {
        dirs := dirs[w.at(slot) := Partial];
      } else {
        dirs := dirs - {w.at(slot)};
      }
      phase := Updating(slot, false);
      Record(was, Rewrite(if leftover then Some(Partial) else None));
    }

    /** A subprocess that writes into the slot, whatever becomes of it. */
    method Build(slot: Path, content: Content)
      requires Valid() && phase.Updating? && phase.slot == slot
      modifies this`dirs, this`phase, this`log
      ensures Valid() && phase == Updating(slot, false) && Quiet(old(log), log)
      ensures w.at(slot) in dirs && dirs[w.at(slot)] == content
    {
      ghost var was := Now();
      dirs := dirs[w.at(slot) := content];
      phase := Updating(slot, false);
      Record(was, Rewrite(Some(content)));
    }

    /** `_smoke_check`: it passes only on an install that boots, and fails on one that does not answer in time. */
    method SmokeCheck(slot: Path, answers: bool) returns (version: Option<string>)
      requires Valid() && (phase.Updating? || phase.RollingBack?) && phase.slot == slot
      modifies this`phase, this`log
      ensures Valid() && (phase.Updating? || phase.RollingBack?) && phase.slot == slot
      ensures phase.Updating? == old(phase).Updating?
      ensures version.Some? ==> phase.passed && log == old(log) + [Check]
      ensures version == if answers && Boots(Now(), w.at(slot)) then Some(dirs[w.at(slot)].version) else None
      ensures version == None ==> log == old(log) && phase == old(phase)
    {
      if !answers || w.at(slot) !in dirs || dirs[w.at(slot)].Partial? {
        return None;
      }
      ghost var was := Now();
      phase := if phase.Updating? then Updating(slot, true) else RollingBack(slot, true);
      Record(was, Check);
      return Some(dirs[w.at(slot)].version);
    }

    /** `_atomic_swap` */
    method AtomicSwap(slot: Path)
      requires Valid() && (phase.Updating? || phase.RollingBack?) && phase.slot == slot && phase.passed
      modifies this`link, this`phase, this`log
      ensures Valid() && link == Some(slot) && phase == Idle && log == old(log) + [Swap]
    {
      ghost var was := Now();
      link, phase := Some(slot), Idle;
      Record(was, Swap);
    }

    ghost method GiveUp()
      requires Valid() && (phase.Updating? || phase.RollingBack?)
      modifies this`phase, this`log
      ensures Valid() && phase == Idle && log == old(log) + [Stop]
    {
      var was := Now();
      phase := Idle;
      Record(was, Stop);
    }

    /** What a run that never moved the link did to the link and to the install it names. */
    lemma LiveUntouched(was: State, before: seq<Action>)
      requires Valid() && visible && Quiet(before, log)
      requires Execute(w, first, before) == Some(was) && was.link.Some?
      ensures Safe(w, was) && LiveAsIn(w, was, Now())
    {
      var since := log[|before|..];
      assert before + since == log;
      ExecuteConcat(w, first, before, since);
      EveryRunIsSafe(w, first, before);
      UntilTheSwapNothingChanges(w, was, since);
    }

    /** A stale slot goes first. */
    method ClearSlot(next: Path)
      requires Valid() && phase == Updating(next, false)
      modifies this`dirs, this`procs, this`phase, this`log
      ensures Valid() && Quiet(old(log), log) && phase == Updating(next, false)
    {
      if w.at(next) in dirs {
        RemoveTree(next);
        Others();
      }
    }

    /** A subprocess writes into the slot, and others go on meanwhile. */
    method RunBuild(next: Path, content: Content)
      requires Valid() && phase == Updating(next, false)
      modifies this`dirs, this`procs, this`phase, this`log
      ensures Valid() && Quiet(old(log), log) && phase == Updating(next, false)
      ensures w.at(next) in dirs && dirs[w.at(next)] == content
    {
      Build(next, content);
      Others();
    }

    /** From the first deletion to the smoke check. */
    method Rebuild(next: Path, job: Job) returns (version: Option<string>)
      requires Valid() && phase == Updating(next, false)
      modifies this`dirs, this`procs, this`phase, this`log
      ensures Valid() && Quiet(old(log), log) && phase.Updating? && phase.slot == next
      ensures version == job.Installs()
      ensures version.Some? ==> phase.passed && w.at(next) in dirs && dirs[w.at(next)] == Complete(version.value)
    {
      ClearSlot(next);
      RunBuild(next, Partial);
      if job.venv != Fine {
        return None;
      }
      RunBuild(next, job.installed);
      if job.pip != Fine {
        return None;
      }
      version := SmokeCheck(next, job.answers);
    }

    /** The refusals. */
    method Refusal(next: Path, active: Path, caller: Option<Path>) returns (refused: bool)
      requires Valid() && phase == Idle && link == Some(active) && next == OtherSlot(w, active)
      modifies this`procs, this`phase, this`log
      ensures Valid() && Quiet(old(log), log)
      ensures phase == if refused then Idle else Updating(next, false)
      ensures NothingApart(w, active, caller) ==> refused
      ensures refused ==> Excused(w, Now(), active, caller)
      ensures !refused && visible ==> Holders(Now(), w.at(next)) == {}
    {
      if SamePath(w, next, active) || (caller.Some? && SamePath(w, caller.value, next)) {
        return true;
      }
      Others();
      var holders := ProcessesHoldingSlot(next);
      if holders != {} {
        assert exists pid :: pid in holders && pid in procs && procs[pid].dir == w.at(next);
        return true;
      }
      ghost var was := Now();
      phase := Updating(next, false);
      Record(was, Aim(caller, holders));
      return false;
    }

    /** `_fail` for a reported failure; an exception leaves the half-built slot behind. */
    method Abandon(next: Path, raised: bool) returns (r: UpdateResult)
      requires Valid() && phase.Updating? && phase.slot == next
      modifies this`dirs, this`phase, this`log
      ensures Valid() && phase == Idle && Quiet(old(log), log)
      ensures r == if raised then Raised else Failed
      ensures r == Failed ==> !Boots(Now(), w.at(next))
    {
      if raised {
        GiveUp();
        return Raised;
      }
      RemoveTree(next);
      GiveUp();
      return Failed;
    }

    method UpdateFrom(active: Path, caller: Option<Path>, job: Job) returns (r: UpdateResult)
      requires Valid() && phase == Idle && link == Some(active)
      modifies this`link, this`dirs, this`procs, this`phase, this`log
      ensures Valid() && phase == Idle && old(log) <= log
      ensures !r.Swapped? ==> link == Some(active) && Quiet(old(log), log)
      ensures r.Swapped? ==> r.previous == active && link == Some(r.slot) && r.slot == OtherSlot(w, active)
      ensures r.Swapped? ==> w.at(r.slot) in dirs && dirs[w.at(r.slot)] == Complete(r.version)
      ensures NothingApart(w, active, caller) ==> r == Refused
      ensures r == Refused ==> dirs == old(dirs) && Excused(w, Now(), active, caller)
      ensures r == Failed ==> !Boots(Now(), w.at(OtherSlot(w, active)))
      ensures r != Refused ==> Reports(r, job)
    {
      var next := OtherSlot(w, active);
      var refused := Refusal(next, active, caller);
      if refused {
        return Refused;
      }
      Others();
      var version := Rebuild(next, job);
      Others();
      if version == None {
        r := Abandon(next, job.Raises());
        return;
      }
      AtomicSwap(next);
      return Swapped(next, active, version.value);
    }

    /** There is a plain directory to migrate, and room for it. */
    predicate Migrates(s: State) {
      s.plain.Some? && w.at(w.blue) !in s.dirs
    }

    /**
     `perform_update`.  `caller` is the slot the calling interpreter lives in, if any.  A result
     other than `Swapped` leaves the link and the install it names as they were.
     */
    method PerformUpdate(caller: Option<Path>, job: Job) returns (r: UpdateResult)
      requires Valid() && phase == Idle
      modifies this
      ensures Valid() && phase == Idle && first == old(first) && old(log) <= log
      ensures old(link).Some? && !r.Swapped? ==> link == old(link) && Quiet(old(log), log)
      ensures old(link).Some? && !r.Swapped? && visible ==> LiveAsIn(w, old(Now()), Now())
      ensures old(link) == None && !r.Swapped? && Migrates(old(Now())) ==> link == Some(w.blue)
      ensures old(link) == None && !r.Swapped? && Migrates(old(Now())) && visible ==>
                w.at(w.blue) in dirs && dirs[w.at(w.blue)] == old(plain).value
      ensures old(link) == None && !Migrates(old(Now())) ==> r == Raised && Now() == old(Now())
      ensures r.Swapped? ==> link == Some(r.slot) && r.slot == OtherSlot(w, r.previous)
      ensures r.Swapped? ==> w.at(r.slot) in dirs && dirs[w.at(r.slot)] == Complete(r.version)
      ensures old(link).Some? || Migrates(old(Now())) ==>
                var active := if old(link).Some? then old(link).value else w.blue;
                && (NothingApart(w, active, caller) ==> r == Refused)
                && (r == Refused ==> Excused(w, Now(), active, caller))
                && (r == Failed ==> !Boots(Now(), w.at(OtherSlot(w, active))))
                && (r.Swapped? ==> r.previous == active && w.at(r.slot) != w.at(active))
                && (r != Refused ==> Reports(r, job))
      ensures r == Refused ==> dirs == if old(link).Some? then old(dirs) else old(dirs)[w.at(w.blue) := old(plain).value]
    {
      var active := EnsureSymlinkLayout();
      if active == None {
        return Raised;
      }
      ghost var linked, start := Now(), log;
      r := UpdateFrom(active.value, caller, job);
      if visible && !r.Swapped? {
        LiveUntouched(linked, start);
      }
    }

    /** The check of a rollback, on a slot that exists. */
    method CheckPrevious(previous: Path, answers: bool) returns (version: Option<string>)
      requires Valid() && phase == Idle && link.Some? && previous == OtherSlot(w, link.value) && w.at(previous) in dirs
      modifies this`procs, this`phase, this`log
      ensures Valid() && Quiet(old(log), log) && phase.RollingBack? && phase.slot == previous
      ensures version == if answers && dirs[w.at(previous)].Complete? then Some(dirs[w.at(previous)].version) else None
      ensures version.Some? ==> phase.passed
    {
      ghost var was := Now();
      phase := RollingBack(previous, false);
      Record(was, AimBack);
      Others();
      version := SmokeCheck(previous, answers);
      Others();
    }

    /** `rollback`: the link moves only onto a slot that has just passed its check, and nothing else changes. */
    method Rollback(answers: bool) returns (r: UpdateResult)
      requires Valid() && phase == Idle
      modifies this`link, this`procs, this`phase, this`log
      ensures Valid() && phase == Idle && old(log) <= log
      ensures r.Swapped? || r == Failed
      ensures r == Failed ==> link == old(link)
      ensures r.Swapped? <==> answers && link.Some? && old(link).Some? && Boots(Now(), w.at(OtherSlot(w, old(link).value)))
      ensures r.Swapped? ==> old(link) == Some(r.previous) && link == Some(r.slot) && r.slot == OtherSlot(w, r.previous)
      ensures r.Swapped? ==> w.at(r.slot) in dirs && dirs[w.at(r.slot)] == Complete(r.version)
    {
      if link == None {
        return Failed;
      }
      var active := link.value;
      var previous := OtherSlot(w, active);
      Others();
      if w.at(previous) !in dirs {
        return Failed;
      }
      var version := CheckPrevious(previous, answers);
      if version == None {
        GiveUp();
        return Failed;
      }
      AtomicSwap(previous);
      return Swapped(previous, active, version.value);
    }
  }
}
