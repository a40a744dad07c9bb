/**
 Tearing down an app-drive session (`coord/app_drive.py`): success is reported only when every
 target has been observed dead, and signals escalate from asking to killing.
 */
module CloseSession {
  import opened Common

  type Pid = nat

  datatype Signal = Term | Kill

  /** `hit` when the process was there to receive it. */
  datatype Sent = Sent(pid: Pid, signal: Signal, hit: bool)

  /** No process is killed that was not first asked to terminate. */
  predicate Escalates(sent: seq<Sent>) {
    forall j :: 0 <= j < |sent| && sent[j].signal == Kill && sent[j].hit ==> Sent(sent[j].pid, Term, true) in sent[..j]
  }

  predicate OnlyTo(sent: seq<Sent>, targets: seq<Pid>) {
    forall s :: s in sent ==> s.pid in targets
  }

  lemma EscalatesAppend(sent: seq<Sent>, s: Sent)
    requires Escalates(sent) && (s.signal == Kill && s.hit ==> Sent(s.pid, Term, true) in sent)
    ensures Escalates(sent + [s])
  {
    var more := sent + [s];
    forall j | 0 <= j < |more| && more[j].signal == Kill && more[j].hit ensures Sent(more[j].pid, Term, true) in more[..j] {
      assert more[..j] == sent[..j];
      assert sent[..|sent|] == sent;
    }
  }

  class Session {
    /** Whether a probe always gets its answer. */
    const sure: bool
    /** The processes that are really there; a dead one never comes back. */
    var running: set<Pid>
    var sessionFile: bool
    ghost var sent: seq<Sent>

    constructor (running: set<Pid>, sure: bool)
      ensures this.running == running && this.sure == sure && sessionFile && sent == []
    {
      this.running, this.sure := running, sure;
      sessionFile, sent := true, [];
    }

    /** Time passes. */
    method SomeExit()
      modifies this`running
      ensures running <= old(running)
    {
      var gone: set<Pid> := *;
      running := running - gone;
    }

    /** `_pid_alive`: "could not ask" counts as alive. */
    method PidAlive(pid: Pid) returns (alive: bool)
      ensures pid in running ==> alive
      ensures sure ==> (alive <==> pid in running)
    {
      var unsure: bool := *;
      alive := pid in running || (!sure && unsure);
    }

    /** `_all_dead`: the probes come one after the other, and stop at the first that seems alive. */
    method AllDead(targets: seq<Pid>) returns (dead: bool)
      modifies this`running
      ensures running <= old(running)
      ensures dead ==> forall t :: t in targets ==> t !in running
      ensures sure && (forall t :: t in targets ==> t !in old(running)) ==> dead
    {
      for k := 0 to |targets|
        invariant running <= old(running) && forall i :: 0 <= i < k ==> targets[i] !in running
      {
        SomeExit();
        var alive := PidAlive(targets[k]);
        if alive {
          return false;
        }
      }
      return true;
    }

    /** Looks until the deadline; the session file goes only once all are dead. */
    method AwaitDeath(targets: seq<Pid>, looks: nat) returns (dead: bool)
      modifies this`running, this`sessionFile
      ensures running <= old(running)
      ensures dead ==> !sessionFile && forall t :: t in targets ==> t !in running
      ensures !dead ==> sessionFile == old(sessionFile)
      ensures sure && looks > 0 && (forall t :: t in targets ==> t !in old(running)) ==> dead
    {
      dead := false;
      for look := 0 to looks
        invariant running <= old(running) && sessionFile == old(sessionFile)
        invariant look > 0 && sure ==> !forall t :: t in targets ==> t !in old(running)
      {
        dead := AllDead(targets);
        if dead {
          sessionFile := false;
          return true;
        }
        SomeExit();
      }
      return false;
    }

    /** One tier: whoever seems alive is signalled. */
    method SignalAll(targets: seq<Pid>, signal: Signal)
      requires Escalates(sent) && OnlyTo(sent, targets)
      requires signal == Kill ==> forall t :: t in targets && t in running ==> Sent(t, Term, true) in sent
      modifies this`running, this`sent
      ensures running <= old(running) && old(sent) <= sent
      ensures Escalates(sent) && OnlyTo(sent, targets)
      ensures forall t :: t in targets && t in running ==> Sent(t, signal, true) in sent
      ensures sure ==> forall j :: |old(sent)| <= j < |sent| ==> sent[j].hit && sent[j].pid in old(running)
    {
      for k := 0 to |targets|
        invariant running <= old(running) && old(sent) <= sent
        invariant Escalates(sent) && OnlyTo(sent, targets)
        invariant forall i :: 0 <= i < k && targets[i] in running ==> Sent(targets[i], signal, true) in sent
        invariant sure ==> forall j :: |old(sent)| <= j < |sent| ==> sent[j].hit && sent[j].pid in old(running)
      {
        var seen := PidAlive(targets[k]);
        if seen {
          EscalatesAppend(sent, Sent(targets[k], signal, targets[k] in running));
          sent := sent + [Sent(targets[k], signal, targets[k] in running)];
        }
        SomeExit();
      }
    }

    /**
     `close_session`: true means all targets are dead and the session is forgotten; false leaves
     the session file, and whoever is still running has been asked and then killed.
     */
    method Close(targets: seq<Pid>, looks: nat, window: nat) returns (closed: bool)
      requires sessionFile && sent == []
      modifies this
      ensures closed ==> !sessionFile && forall t :: t in targets ==> t !in running
      ensures !closed ==>
                sessionFile
                && forall t :: t in targets && t in running ==> Sent(t, Term, true) in sent && Sent(t, Kill, true) in sent
      ensures Escalates(sent) && OnlyTo(sent, targets) && running <= old(running)
      ensures sure && looks > 0 && (forall t :: t in targets ==> t !in old(running)) ==> closed && sent == []
      ensures sure ==> forall s :: s in sent ==> s.hit && s.pid in old(running)
    {
      SomeExit();
      closed := AwaitDeath(targets, looks);
      if closed {
        return;
      }
      SignalAll(targets, Term);
      closed := AwaitDeath(targets, window);
      if closed {
        return;
      }
      SignalAll(targets, Kill);
      closed := AwaitDeath(targets, window);
    }
  }
}
