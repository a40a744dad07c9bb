/**
 The file-based request/reply protocol of `coord/app_drive.py` and `coord/app_drive_daemon.py`.

 Clients and one daemon share a control directory.  `Next` interleaves their single file
 operations in any order; a request or a reply is written under a temporary name and renamed,
 so it can be seen half-written only under that name.
 */
module AppDrive {
  import opened Common

  /** A request id; every call draws a fresh one. */
  type Id = nat

  datatype Command = Command(token: string, op: string)

  /** A result covers what the backend answers and the errors it raises. */
  datatype Reply = Result(value: string) | Unauthorized

  datatype File = Req(id: Id) | ReqTmp(id: Id) | ReplyFile(id: Id) | ReplyTmp(id: Id)

  datatype Contents = Half | Request(id: Id, cmd: Command) | Answer(reply: Reply)

  datatype Stage = Writing | Written | Waiting | Reading(raw: Contents) | Cleaning | Leaving | Returned(raw: Contents) | Failed

  datatype Call = Call(cmd: Command, stage: Stage)

  /** `Holding` has read a request, `Taken` has unlinked it; `last` says that the request was a `close`. */
  datatype Daemon =
    | Top
    | Working(queue: seq<Id>)
    | Holding(raw: Contents, file: Id, queue: seq<Id>)
    | Taken(raw: Contents, queue: seq<Id>)
    | Answering(id: Id, reply: Reply, queue: seq<Id>, last: bool)
    | Drafting(id: Id, reply: Reply, queue: seq<Id>, last: bool)
    | Drafted(id: Id, reply: Reply, queue: seq<Id>, last: bool)
    | Answered(queue: seq<Id>, last: bool)
    | Ended

  /** One request the daemon dealt with: dispatched, or turned away. */
  datatype Entry = Entry(id: Id, cmd: Command, reply: Reply)

  datatype State = State(files: map<File, Contents>, calls: map<Id, Call>, daemon: Daemon, log: seq<Entry>)

  datatype Action =
    | Begin(id: Id, cmd: Command)
    | Fill(id: Id)
    | Publish(id: Id)
    | BreakOff(id: Id)
    | ReadReply(id: Id)
    | Return(id: Id, unlinked: bool)
    | TimeOut(id: Id)
    | DropRequest(id: Id, unlinked: bool)
    | DropReply(id: Id, unlinked: bool)
    | List(queue: seq<Id>)
    | ReadRequest
    | SkipRequest
    | Unlink(unlinked: bool)
    | Dispatch(value: string)
    | Draft
    | FillReply
    | PublishReply
    | LoseReply
    | Continue
    | Expire

  function Without(files: map<File, Contents>, f: File, unlinked: bool): map<File, Contents> {
    if unlinked then files - {f} else files
  }

  function SetStage(s: State, id: Id, stage: Stage): State
    requires id in s.calls
  {
    s.(calls := s.calls[id := Call(s.calls[id].cmd, stage)])
  }

  /** `_send_command_via_control_dir`, one file operation at a time. */
  function NextOfClient(s: State, a: Action): Option<State> {
    match a
    case Begin(id, cmd) =>
      if id in s.calls then None
      else Some(s.(files := s.files[ReqTmp(id) := Half], calls := s.calls[id := Call(cmd, Writing)]))
    case Fill(id) =>
      if id in s.calls && s.calls[id].stage == Writing
      then Some(SetStage(s, id, Written).(files := s.files[ReqTmp(id) := Request(id, s.calls[id].cmd)]))
      else None
    case Publish(id) =>
      if id in s.calls && s.calls[id].stage == Written && ReqTmp(id) in s.files
      then Some(SetStage(s, id, Waiting).(files := (s.files - {ReqTmp(id)})[Req(id) := s.files[ReqTmp(id)]]))
      else None
    case BreakOff(id) =>
      if id in s.calls && (s.calls[id].stage == Writing || s.calls[id].stage == Written)
      then Some(SetStage(s, id, Failed)) else None
    case ReadReply(id) =>
      if id in s.calls && s.calls[id].stage == Waiting && ReplyFile(id) in s.files
      then Some(SetStage(s, id, Reading(s.files[ReplyFile(id)]))) else None
    case Return(id, unlinked) =>
      if id in s.calls && s.calls[id].stage.Reading?
      then Some(SetStage(s, id, Returned(s.calls[id].stage.raw)).(files := Without(s.files, ReplyFile(id), unlinked)))
      else None
    case TimeOut(id) =>
      if id in s.calls && s.calls[id].stage == Waiting then Some(SetStage(s, id, Cleaning)) else None
    case DropRequest(id, unlinked) =>
      if id in s.calls && s.calls[id].stage == Cleaning
      then Some(SetStage(s, id, Leaving).(files := Without(s.files, Req(id), unlinked))) else None
    case DropReply(id, unlinked) =>
      if id in s.calls && s.calls[id].stage == Leaving
      then Some(SetStage(s, id, Failed).(files := Without(s.files, ReplyFile(id), unlinked))) else None
    case _ => None
  }

  const CLOSE := "close"

  /** What the daemon does with a request it has taken: a torn one has no id to answer to. */
  function Deal(s: State, secret: string, raw: Contents, queue: seq<Id>, value: string): State {
    if !raw.Request? then s.(daemon := Answered(queue, false))
    else
      var reply := if raw.cmd.token != secret then Unauthorized else Result(value);
      s.(daemon := Answering(raw.id, reply, queue, raw.cmd.op == CLOSE), log := s.log + [Entry(raw.id, raw.cmd, reply)])
  }

  /** A directory listing names every request file, and nothing else. */
  predicate Lists(queue: seq<Id>, files: map<File, Contents>) {
    (forall id :: id in queue ==> Req(id) in files) && (forall f :: f in files && f.Req? ==> f.id in queue)
  }

  /** `_serve_fs_control`, one file operation at a time. */
  function NextOfDaemon(s: State, secret: string, a: Action): Option<State> {
    var d := s.daemon;
    match a
    case List(queue) =>
      if d == Top && Lists(queue, s.files) then Some(s.(daemon := Working(queue))) else None
    case ReadRequest =>
      if d.Working? && d.queue != [] && Req(d.queue[0]) in s.files
      then Some(s.(daemon := Holding(s.files[Req(d.queue[0])], d.queue[0], d.queue[1..]))) else None
    case SkipRequest =>
      if d.Working? && d.queue != [] then Some(s.(daemon := Working(d.queue[1..]))) else None
    case Unlink(unlinked) =>
      if d.Holding?
      then Some(s.(daemon := Taken(d.raw, d.queue), files := Without(s.files, Req(d.file), unlinked))) else None
    case Dispatch(value) =>
      if d.Taken? then Some(Deal(s, secret, d.raw, d.queue, value)) else None
    case Draft =>
      if d.Answering?
      then Some(s.(daemon := Drafting(d.id, d.reply, d.queue, d.last), files := s.files[ReplyTmp(d.id) := Half]))
      else None
    case FillReply =>
      if d.Drafting?
      then Some(s.(daemon := Drafted(d.id, d.reply, d.queue, d.last), files := s.files[ReplyTmp(d.id) := Answer(d.reply)]))
      else None
    case PublishReply =>
      if d.Drafted? && ReplyTmp(d.id) in s.files
      then Some(s.(daemon := Answered(d.queue, d.last),
                   files := (s.files - {ReplyTmp(d.id)})[ReplyFile(d.id) := s.files[ReplyTmp(d.id)]]))
      else None
    case LoseReply =>
      if d.Answering? || d.Drafting? || d.Drafted? then Some(s.(daemon := Answered(d.queue, d.last))) else None
    case Continue =>
      if d.Answered? then Some(s.(daemon := if d.last then Ended else Working(d.queue)))
      else if d == Working([]) then Some(s.(daemon := Top))
      else None
    case Expire =>
      if d == Top then Some(s.(daemon := Ended)) else None
    case _ => None
  }

  predicate OfClient(a: Action) {
    a.Begin? || a.Fill? || a.Publish? || a.BreakOff? || a.ReadReply? || a.Return? || a.TimeOut? || a.DropRequest?
    || a.DropReply?
  }

  function Next(s: State, secret: string, a: Action): Option<State> {
    if OfClient(a) then NextOfClient(s, a) else NextOfDaemon(s, secret, a)
  }

  function Execute(s: State, secret: string, actions: seq<Action>): Option<State>
    decreases |actions|
  {
    if actions == [] then Some(s)
    else if Next(s, secret, actions[0]) == None then None
    else Execute(Next(s, secret, actions[0]).value, secret, actions[1..])
  }

  /** The daemon's unlinks succeed. */
  predicate UnlinksWork(actions: seq<Action>) {
    forall i :: 0 <= i < |actions| ==> actions[i] != Unlink(false)
  }

  const START := State(map[], map[], Top, [])

  // ── the invariant ──────────────────────────────────────────────────────────

  predicate OutOfHand(stage: Stage) {
    stage != Writing && stage != Written
  }

  ghost predicate Logged(log: seq<Entry>, id: Id) {
    exists i :: 0 <= i < |log| && log[i].id == id
  }

  ghost predicate OncePerId(log: seq<Entry>) {
    forall i, j :: 0 <= i < j < |log| ==> log[i].id != log[j].id
  }

  /** A request file holds what its caller wrote, under its own id. */
  ghost predicate GoodRequest(s: State, id: Id, raw: Contents) {
    id in s.calls && OutOfHand(s.calls[id].stage) && raw == Request(id, s.calls[id].cmd) && !Logged(s.log, id)
  }

  ghost predicate GoodAnswer(s: State, id: Id, raw: Contents) {
    raw.Answer? && id in s.calls && Entry(id, s.calls[id].cmd, raw.reply) in s.log
  }

  ghost predicate FileGood(s: State, f: File)
    requires f in s.files
  {
    (f.Req? ==> GoodRequest(s, f.id, s.files[f])) && (f.ReplyFile? ==> GoodAnswer(s, f.id, s.files[f]))
  }

  ghost predicate FilesGood(s: State) {
    forall f :: f in s.files ==> FileGood(s, f)
  }

  ghost predicate CallGood(s: State, id: Id)
    requires id in s.calls
  {
    var call := s.calls[id];
    && (call.stage == Writing ==> !Logged(s.log, id))
    && (call.stage == Written ==>
          !Logged(s.log, id) && ReqTmp(id) in s.files && s.files[ReqTmp(id)] == Request(id, call.cmd))
    && (call.stage.Reading? || call.stage.Returned? ==> GoodAnswer(s, id, call.stage.raw))
  }

  ghost predicate CallsGood(s: State) {
    forall id :: id in s.calls ==> CallGood(s, id)
  }

  ghost predicate LogGood(s: State, secret: string) {
    && OncePerId(s.log)
    && (forall e :: e in s.log ==> 
          e.id in s.calls && e.cmd == s.calls[e.id].cmd && (e.reply == Unauthorized <==> e.cmd.token != secret))
  }

  ghost predicate DaemonGood(s: State) {
    var d := s.daemon;
    && (d.Holding? ==> GoodRequest(s, d.file, d.raw))
    && (d.Taken? ==> d.raw.Request? && GoodRequest(s, d.raw.id, d.raw) && Req(d.raw.id) !in s.files)
    && (d.Answering? || d.Drafting? || d.Drafted? ==> GoodAnswer(s, d.id, Answer(d.reply)))
    && (d.Drafted? ==> ReplyTmp(d.id) in s.files && s.files[ReplyTmp(d.id)] == Answer(d.reply))
  }

  /** After a `close` nothing more is dealt with. */
  ghost predicate ClosesLast(s: State) {
    forall i :: 0 <= i < |s.log| && s.log[i].cmd.op == CLOSE ==>
      i == |s.log| - 1
      && (s.daemon == Ended
          || ((s.daemon.Answering? || s.daemon.Drafting? || s.daemon.Drafted? || s.daemon.Answered?) && s.daemon.last))
  }

  ghost predicate Inv(s: State, secret: string) {
    FilesGood(s) && CallsGood(s) && LogGood(s, secret) && DaemonGood(s) && ClosesLast(s)
  }

  lemma ClientKeepsFiles(s: State, secret: string, a: Action)
    requires Inv(s, secret) && OfClient(a) && NextOfClient(s, a).Some?
    ensures var t := NextOfClient(s, a).value; FilesGood(t)
  {
    var t := NextOfClient(s, a).value;
    forall f | f in t.files ensures FileGood(t, f) {
      if f in s.files {
        assert FileGood(s, f);
      }
    }
  }

  lemma ClientKeepsCalls(s: State, secret: string, a: Action)
    requires Inv(s, secret) && OfClient(a) && NextOfClient(s, a).Some?
    ensures var t := NextOfClient(s, a).value; CallsGood(t)
  {
    var t := NextOfClient(s, a).value;
    forall id | id in t.calls ensures CallGood(t, id) {
      if id in s.calls {
        assert CallGood(s, id);
      }
    }
  }

  lemma ClientKeepsLog(s: State, secret: string, a: Action)
    requires Inv(s, secret) && OfClient(a) && NextOfClient(s, a).Some?
    ensures var t := NextOfClient(s, a).value; LogGood(t, secret)
  {
  }

  lemma ClientKeepsDaemon(s: State, secret: string, a: Action)
    requires Inv(s, secret) && OfClient(a) && NextOfClient(s, a).Some?
    ensures var t := NextOfClient(s, a).value; DaemonGood(t)
  {
  }

  lemma ClientKeepsCloses(s: State, secret: string, a: Action)
    requires Inv(s, secret) && OfClient(a) && NextOfClient(s, a).Some?
    ensures var t := NextOfClient(s, a).value; ClosesLast(t)
  {
  }

  lemma DaemonKeepsFiles(s: State, secret: string, a: Action)
    requires Inv(s, secret) && !OfClient(a) && a != Unlink(false) && NextOfDaemon(s, secret, a).Some?
    ensures var t := NextOfDaemon(s, secret, a).value; FilesGood(t)
  {
    var t := NextOfDaemon(s, secret, a).value;
    forall f | f in t.files ensures FileGood(t, f) {
      if f in s.files {
        assert FileGood(s, f);
      }
    }
  }

  lemma DaemonKeepsCalls(s: State, secret: string, a: Action)
    requires Inv(s, secret) && !OfClient(a) && a != Unlink(false) && NextOfDaemon(s, secret, a).Some?
    ensures var t := NextOfDaemon(s, secret, a).value; CallsGood(t)
  {
    var t := NextOfDaemon(s, secret, a).value;
    forall id | id in t.calls ensures CallGood(t, id) {
      if id in s.calls {
        assert CallGood(s, id);
      }
    }
  }

  lemma DaemonKeepsLog(s: State, secret: string, a: Action)
    requires Inv(s, secret) && !OfClient(a) && a != Unlink(false) && NextOfDaemon(s, secret, a).Some?
    ensures var t := NextOfDaemon(s, secret, a).value; LogGood(t, secret)
  {
  }

  lemma DaemonKeepsDaemon(s: State, secret: string, a: Action)
    requires Inv(s, secret) && !OfClient(a) && a != Unlink(false) && NextOfDaemon(s, secret, a).Some?
    ensures var t := NextOfDaemon(s, secret, a).value; DaemonGood(t)
  {
  }

  lemma DaemonKeepsCloses(s: State, secret: string, a: Action)
    requires Inv(s, secret) && !OfClient(a) && a != Unlink(false) && NextOfDaemon(s, secret, a).Some?
    ensures var t := NextOfDaemon(s, secret, a).value; ClosesLast(t)
  {
  }

  lemma NextKeepsInv(s: State, secret: string, a: Action)
    requires Inv(s, secret) && a != Unlink(false) && Next(s, secret, a).Some?
    ensures Inv(Next(s, secret, a).value, secret)
  {
    if OfClient(a) {
      ClientKeepsFiles(s, secret, a);
      ClientKeepsCalls(s, secret, a);
      ClientKeepsLog(s, secret, a);
      ClientKeepsDaemon(s, secret, a);
      ClientKeepsCloses(s, secret, a);
    } else {
      DaemonKeepsFiles(s, secret, a);
      DaemonKeepsCalls(s, secret, a);
      DaemonKeepsLog(s, secret, a);
      DaemonKeepsDaemon(s, secret, a);
      DaemonKeepsCloses(s, secret, a);
    }
  }

  lemma StartIsGood(secret: string)
    ensures Inv(START, secret)
  {
  }

  /**
   Over every interleaving: each id is dealt with at most once, nothing with a wrong token is
   dispatched, and whatever a client returns is the reply to its own request.
   */
  lemma {:induction false} EveryRunIsGood(s: State, secret: string, actions: seq<Action>)
    requires Inv(s, secret) && UnlinksWork(actions) && Execute(s, secret, actions).Some?
    ensures Inv(Execute(s, secret, actions).value, secret)
    decreases |actions|
  {
    if actions != [] {
      NextKeepsInv(s, secret, actions[0]);
      EveryRunIsGood(Next(s, secret, actions[0]).value, secret, actions[1..]);
    }
  }

  /** The same, in terms of what the two sides see. */
  lemma WhatEveryoneSees(secret: string, actions: seq<Action>)
    requires UnlinksWork(actions) && Execute(START, secret, actions).Some?
    ensures var s := Execute(START, secret, actions).value;
            && (forall i, j :: 0 <= i < j < |s.log| ==> s.log[i].id != s.log[j].id)
            && (forall e :: e in s.log && e.reply.Result? ==> e.cmd.token == secret)
            && (forall id :: id in s.calls && s.calls[id].stage.Returned? ==>
                  s.calls[id].stage.raw.Answer? && Entry(id, s.calls[id].cmd, s.calls[id].stage.raw.reply) in s.log)
            && (forall id :: id in s.calls && s.calls[id].stage.Reading? ==> s.calls[id].stage.raw != Half)
            && (s.daemon.Holding? || s.daemon.Taken? ==> s.daemon.raw != Half)
  {
    StartIsGood(secret);
    EveryRunIsGood(START, secret, actions);
  }

  ghost predicate Closed(s: State) {
    s.daemon == Ended ||
    ((s.daemon.Answering? || s.daemon.Drafting? || s.daemon.Drafted? || s.daemon.Answered?) && s.daemon.last)
  }

  /** Once a `close` is dealt with, or the daemon has expired, nothing more is dispatched. */
  lemma {:induction false} NothingAfterClose(s: State, secret: string, actions: seq<Action>)
    requires Closed(s) && Execute(s, secret, actions).Some?
    ensures Closed(Execute(s, secret, actions).value) && Execute(s, secret, actions).value.log == s.log
    decreases |actions|
  {
    if actions != [] {
      NothingAfterClose(Next(s, secret, actions[0]).value, secret, actions[1..]);
    }
  }

  lemma ExecuteConcat(s: State, secret: string, a: seq<Action>, b: seq<Action>)
    ensures Execute(s, secret, a + b)
         == match Execute(s, secret, a) case None => None case Some(t) => Execute(t, secret, b)
    decreases |a|
  {
    if a == [] {
      assert a + b == b;
    } else {
      assert (a + b)[1..] == a[1..] + b;
      if Next(s, secret, a[0]).Some? {
        ExecuteConcat(Next(s, secret, a[0]).value, secret, a[1..], b);
      }
    }
  }

  /** In every run: once a `close` has been dealt with, whatever happens then, nothing more is. */
  lemma CloseIsLast(secret: string, before: seq<Action>, after: seq<Action>)
    requires UnlinksWork(before) && Execute(START, secret, before + after).Some?
    requires Execute(START, secret, before).Some?
    requires exists e :: e in Execute(START, secret, before).value.log && e.cmd.op == CLOSE
    ensures Execute(START, secret, before + after).value.log == Execute(START, secret, before).value.log
  {
    var s := Execute(START, secret, before).value;
    StartIsGood(secret);
    EveryRunIsGood(START, secret, before);
    var e :| e in s.log && e.cmd.op == CLOSE;
    var i :| 0 <= i < |s.log| && s.log[i] == e;
    ExecuteConcat(START, secret, before, after);
    NothingAfterClose(s, secret, after);
  }

  // ── exactly when a failed unlink matters ───────────────────────────────────

  /** From here on, as long as later unlinks work, no request is dealt with twice. */
  ghost predicate StaysOnce(s: State, secret: string) {
    forall actions :: UnlinksWork(actions) && Execute(s, secret, actions).Some? ==>
      OncePerId(Execute(s, secret, actions).value.log)
  }

  lemma {:induction false} Enumerate(ids: set<Id>) returns (queue: seq<Id>)
    ensures forall id :: id in queue <==> id in ids
  {
    if ids == {} {
      queue := [];
    } else {
      var id :| id in ids;
      var rest := Enumerate(ids - {id});
      queue := [id] + rest;
    }
  }

  lemma ExecuteCons(s: State, secret: string, a: Action, actions: seq<Action>)
    requires Next(s, secret, a).Some?
    ensures Execute(s, secret, [a] + actions) == Execute(Next(s, secret, a).value, secret, actions)
  {
    assert ([a] + actions)[1..] == actions;
  }

  /** A daemon between two requests comes round to any request file that is still there. */
  lemma {:induction false} ComesRound(s: State, secret: string, id: Id) returns (actions: seq<Action>, queue: seq<Id>)
    requires s.daemon.Working? && Req(id) in s.files
    ensures UnlinksWork(actions)
    ensures Execute(s, secret, actions) == Some(s.(daemon := Working([id] + queue)))
    decreases |s.daemon.queue|
  {
    if s.daemon.queue == [] {
      var ids := set f | f in s.files && f.Req? :: f.id;
      queue := Enumerate(ids);
      actions := [Continue] + [List([id] + queue)];
      ExecuteCons(s, secret, Continue, [List([id] + queue)]);
      var top := s.(daemon := Top);
      assert Lists([id] + queue, s.files);
      ExecuteCons(top, secret, List([id] + queue), []);
      assert [List([id] + queue)] + [] == [List([id] + queue)];
    } else {
      var rest;
      rest, queue := ComesRound(s.(daemon := Working(s.daemon.queue[1..])), secret, id);
      actions := [SkipRequest] + rest;
      ExecuteCons(s, secret, SkipRequest, rest);
    }
  }

  /** The next request of the queue, read, unlinked and dealt with. */
  lemma DealsWithNext(s: State, secret: string, id: Id, queue: seq<Id>) returns (actions: seq<Action>)
    requires s.daemon == Working([id] + queue) && Req(id) in s.files && s.files[Req(id)].Request?
    ensures UnlinksWork(actions)
    ensures Execute(s, secret, actions).Some?
    ensures var log := Execute(s, secret, actions).value.log;
            |log| == |s.log| + 1 && s.log == log[..|s.log|] && log[|s.log|].id == s.files[Req(id)].id
  {
    assert ([id] + queue)[1..] == queue;
    var held := s.(daemon := Holding(s.files[Req(id)], id, queue));
    var taken := held.(daemon := Taken(held.daemon.raw, queue), files := held.files - {Req(id)});
    actions := [ReadRequest] + ([Unlink(true)] + ([Dispatch("")] + []));
    ExecuteCons(s, secret, ReadRequest, [Unlink(true)] + ([Dispatch("")] + []));
    ExecuteCons(held, secret, Unlink(true), [Dispatch("")] + []);
    ExecuteCons(taken, secret, Dispatch(""), []);
  }

  lemma DealsAndGoesOn(s: State, secret: string) returns (actions: seq<Action>)
    requires s.daemon.Taken? && s.daemon.raw.Request? && s.daemon.raw.cmd.op != CLOSE
    ensures UnlinksWork(actions)
    ensures Execute(s, secret, actions)
         == Some(Deal(s, secret, s.daemon.raw, s.daemon.queue, "").(daemon := Working(s.daemon.queue)))
  {
    var dealt := Deal(s, secret, s.daemon.raw, s.daemon.queue, "");
    var lost := dealt.(daemon := Answered(s.daemon.queue, false));
    actions := [Dispatch("")] + ([LoseReply] + ([Continue] + []));
    ExecuteCons(s, secret, Dispatch(""), [LoseReply] + ([Continue] + []));
    ExecuteCons(dealt, secret, LoseReply, [Continue] + []);
    ExecuteCons(lost, secret, Continue, []);
  }

  lemma LoggedTwice(before: seq<Entry>, after: seq<Entry>, id: Id)
    requires |after| == |before| + 2 && after[|before|].id == id && after[|before| + 1].id == id
    ensures !OncePerId(after)
  {
  }

  /** A request that was taken without being unlinked is dealt with again. */
  lemma TakenTwice(s: State, secret: string) returns (actions: seq<Action>)
    requires s.daemon.Holding? && Req(s.daemon.file) in s.files && s.files[Req(s.daemon.file)] == s.daemon.raw
    requires s.daemon.raw.Request? && s.daemon.raw.id == s.daemon.file && s.daemon.raw.cmd.op != CLOSE
    ensures UnlinksWork(actions)
    ensures var t := Next(s, secret, Unlink(false)).value;
            Execute(t, secret, actions).Some? && !OncePerId(Execute(t, secret, actions).value.log)
  {
    var id := s.daemon.file;
    var t := Next(s, secret, Unlink(false)).value;
    var once, back := TakenOnce(s, secret);
    var round, queue := ComesRound(back, secret, id);
    var ready := back.(daemon := Working([id] + queue));
    var end := DealsWithNext(ready, secret, id, queue);
    ExecuteThree(t, secret, once, back, round, ready, end);
    actions := once + (round + end);
    LoggedTwice(s.log, Execute(ready, secret, end).value.log, id);
  }

  /** The first time: the request is dealt with, and its file stays. */
  lemma TakenOnce(s: State, secret: string) returns (actions: seq<Action>, back: State)
    requires s.daemon.Holding? && s.daemon.raw.Request? && s.daemon.raw.id == s.daemon.file && s.daemon.raw.cmd.op != CLOSE
    ensures UnlinksWork(actions) && Execute(Next(s, secret, Unlink(false)).value, secret, actions) == Some(back)
    ensures back.daemon.Working? && back.files == s.files
    ensures |back.log| == |s.log| + 1 && back.log[|s.log|].id == s.daemon.file
  {
    var t := Next(s, secret, Unlink(false)).value;
    actions := DealsAndGoesOn(t, secret);
    back := Deal(t, secret, t.daemon.raw, t.daemon.queue, "").(daemon := Working(t.daemon.queue));
  }

  lemma ExecuteThree(s: State, secret: string, a: seq<Action>, t: State, b: seq<Action>, u: State, c: seq<Action>)
    requires Execute(s, secret, a) == Some(t) && Execute(t, secret, b) == Some(u)
    ensures Execute(s, secret, a + (b + c)) == Execute(u, secret, c)
    ensures UnlinksWork(a) && UnlinksWork(b) && UnlinksWork(c) ==> UnlinksWork(a + (b + c))
  {
    ExecuteConcat(t, secret, b, c);
    ExecuteConcat(s, secret, a, b + c);
  }

  /** A `close` that is being dealt with ends the daemon whatever lies in the directory. */
  ghost predicate Closing(s: State) {
    OncePerId(s.log)
    && (Closed(s) || (s.daemon.Taken? && s.daemon.raw.Request? && s.daemon.raw.cmd.op == CLOSE
                      && !Logged(s.log, s.daemon.raw.id)))
  }

  lemma {:induction false} ClosingStaysOnce(s: State, secret: string, actions: seq<Action>)
    requires Closing(s) && Execute(s, secret, actions).Some?
    ensures Closing(Execute(s, secret, actions).value)
    decreases |actions|
  {
    if actions != [] {
      ClosingStaysOnce(Next(s, secret, actions[0]).value, secret, actions[1..]);
    }
  }

  /**
   A request is never dealt with twice if and only if the daemon's unlink removed its file (or
   the client already had), or the request ends the daemon anyway.
   */
  lemma OnceIffUnlinked(s: State, secret: string, unlinked: bool)
    requires Inv(s, secret) && s.daemon.Holding?
    ensures StaysOnce(Next(s, secret, Unlink(unlinked)).value, secret)
       <==> unlinked || Req(s.daemon.file) !in s.files || s.daemon.raw.cmd.op == CLOSE
  {
    var t := Next(s, secret, Unlink(unlinked)).value;
    if unlinked || Req(s.daemon.file) !in s.files {
      assert t == Next(s, secret, Unlink(true)).value;
      NextKeepsInv(s, secret, Unlink(true));
      forall actions | UnlinksWork(actions) && Execute(t, secret, actions).Some?
        ensures OncePerId(Execute(t, secret, actions).value.log)
      {
        EveryRunIsGood(t, secret, actions);
      }
    } else if s.daemon.raw.cmd.op == CLOSE {
      forall actions | UnlinksWork(actions) && Execute(t, secret, actions).Some?
        ensures OncePerId(Execute(t, secret, actions).value.log)
      {
        ClosingStaysOnce(t, secret, actions);
      }
    } else {
      var actions := TakenTwice(s, secret);
    }
  }

  /** What others do leaves a call alone and only adds to the log. */
  lemma OthersLeaveCall(s: State, secret: string, id: Id, a: Action)
    requires id in s.calls && Next(s, secret, a).Some? && !(OfClient(a) && a.id == id)
    ensures var t := Next(s, secret, a).value;
            && s.log <= t.log && id in t.calls && t.calls[id] == s.calls[id]
            && (ReplyFile(id) in s.files ==> ReplyFile(id) in t.files)
  {
  }

  // ── the two sides as they run ──────────────────────────────────────────────

  class ControlDir {
    const secret: string
    /** Whether reading and writing files never fails. */
    const reliable: bool
    var files: map<File, Contents>
    /** Where every call, and the daemon, has got to. */
    var calls: map<Id, Call>
    var daemon: Daemon
    var log: seq<Entry>

    function Now(): State
      reads this
    {
      State(files, calls, daemon, log)
    }

    ghost predicate Valid()
      reads this
    {
      Inv(Now(), secret)
    }

    constructor (secret: string, reliable: bool)
      ensures Valid() && this.secret == secret && this.reliable == reliable && Now() == START
    {
      this.secret, this.reliable := secret, reliable;
      files, calls, daemon, log := map[], map[], Top, [];
    }

    /** One step of the protocol, by whoever's turn it is. */
    method Do(a: Action)
      requires Valid() && a != Unlink(false) && Next(Now(), secret, a).Some?
      modifies this
      ensures Valid() && Next(old(Now()), secret, a) == Some(Now())
    {
      NextKeepsInv(Now(), secret, a);
      var t := Next(Now(), secret, a).value;
      files, calls, daemon, log := t.files, t.calls, t.daemon, t.log;
    }

    /** Other clients and the daemon take any number of steps. */
    method OthersThanCall(id: Id)
      requires Valid() && id in calls
      modifies this
      ensures Valid() && old(log) <= log && id in calls && calls[id] == old(calls)[id]
      ensures ReplyFile(id) in old(files) ==> ReplyFile(id) in files
    {
      var turns :| turns >= 0;
      for turn := 0 to turns
        invariant Valid() && old(log) <= log && id in calls && calls[id] == old(calls)[id]
        invariant ReplyFile(id) in old(files) ==> ReplyFile(id) in files
      {
        var a: Action := *;
        if a != Unlink(false) && Next(Now(), secret, a).Some? && !(OfClient(a) && a.id == id) {
          OthersLeaveCall(Now(), secret, id, a);
          Do(a);
        }
      }
    }

    /** Clients take any number of steps. */
    method OthersThanDaemon()
      requires Valid()
      modifies this
      ensures Valid() && daemon == old(daemon) && log == old(log)
    {
      var turns :| turns >= 0;
      for turn := 0 to turns
        invariant Valid() && daemon == old(daemon) && log == old(log)
      {
        var a: Action := *;
        if OfClient(a) && Next(Now(), secret, a).Some? {
          Do(a);
        }
      }
    }

    /** The request file, under its temporary name and then under its own. */
    method PostRequest(id: Id, cmd: Command) returns (posted: bool)
      requires Valid() && id !in calls
      modifies this
      ensures Valid() && old(log) <= log
      ensures id in calls && calls[id] == Call(cmd, if posted then Waiting else Failed)
      ensures reliable ==> posted
    {
      Do(Begin(id, cmd));
      OthersThanCall(id);
      posted := *;
      posted := posted || reliable;
      if !posted {
        Do(BreakOff(id));
        return;
      }
      PublishRequest(id);
    }

    method PublishRequest(id: Id)
      requires Valid() && id in calls && calls[id].stage == Writing
      modifies this
      ensures Valid() && old(log) <= log
      ensures id in calls && calls[id] == Call(old(calls)[id].cmd, Waiting)
    {
      Do(Fill(id));
      OthersThanCall(id);
      assert CallGood(Now(), id);
      Do(Publish(id));
    }

    /** The reply is there: it is read and then removed. */
    method FetchReply(id: Id) returns (r: Reply)
      requires Valid() && id in calls && calls[id].stage == Waiting && ReplyFile(id) in files
      modifies this
      ensures Valid() && old(log) <= log && id in calls && calls[id].cmd == old(calls)[id].cmd
      ensures Entry(id, calls[id].cmd, r) in log && calls[id].stage == Returned(Answer(r))
    {
      var raw := files[ReplyFile(id)];
      Do(ReadReply(id));
      assert CallGood(Now(), id);
      OthersThanCall(id);
      var unlinked: bool := *;
      Do(Return(id, unlinked));
      assert CallGood(Now(), id);
      r := raw.reply;
    }

    /** One look for the reply. */
    method LookForReply(id: Id) returns (r: Option<Reply>)
      requires Valid() && id in calls && calls[id].stage == Waiting
      modifies this
      ensures Valid() && old(log) <= log && id in calls && calls[id].cmd == old(calls)[id].cmd
      ensures r.Some? ==> Entry(id, calls[id].cmd, r.value) in log && calls[id].stage == Returned(Answer(r.value))
      ensures r == None ==> calls[id].stage == Waiting
      ensures reliable && ReplyFile(id) in old(files) ==> r.Some?
    {
      OthersThanCall(id);
      var readable: bool := *;
      if ReplyFile(id) !in files || !(readable || reliable) {
        return None;
      }
      var reply := FetchReply(id);
      return Some(reply);
    }

    /** The deadline has passed: both files go. */
    method Withdraw(id: Id)
      requires Valid() && id in calls && calls[id].stage == Waiting
      modifies this
      ensures Valid() && old(log) <= log && id in calls && calls[id] == Call(old(calls)[id].cmd, Failed)
    {
      Do(TimeOut(id));
      var dropped: bool := *;
      Do(DropRequest(id, dropped));
      OthersThanCall(id);
      dropped := *;
      Do(DropReply(id, dropped));
    }

    /**
     `_send_command_via_control_dir` with `polls` looks for the reply before the deadline.  What it
     returns is the daemon's reply to this very request; None is the unreachable error.
     */
    method SendCommand(id: Id, cmd: Command, polls: nat) returns (r: Option<Reply>)
      requires Valid() && id !in calls
      modifies this
      ensures Valid() && old(log) <= log
      ensures id in calls && calls[id].cmd == cmd
      ensures r.Some? ==> Entry(id, cmd, r.value) in log && calls[id].stage == Returned(Answer(r.value))
      ensures r == None ==> calls[id].stage == Failed
    {
      var posted := PostRequest(id, cmd);
      if !posted {
        return None;
      }
      for poll := 0 to polls
        invariant Valid() && old(log) <= log && id in calls && calls[id] == Call(cmd, Waiting)
      {
        r := LookForReply(id);
        if r.Some? {
          return;
        }
      }
      Withdraw(id);
      return None;
    }

    method WriteReply()
      requires Valid() && daemon.Answering?
      modifies this
      ensures Valid() && log == old(log)
      ensures var d := old(daemon); daemon == Drafted(d.id, d.reply, d.queue, d.last)
    {
      Do(Draft);
      OthersThanDaemon();
      Do(FillReply);
    }

    /** The reply file, under its temporary name and then under its own, unless writing fails. */
    method SendReply()
      requires Valid() && daemon.Answering?
      modifies this
      ensures Valid() && log == old(log) && daemon == Answered(old(daemon).queue, old(daemon).last)
      ensures reliable ==> ReplyFile(old(daemon).id) in files
    {
      var lost: bool := *;
      if lost && !reliable {
        Do(LoseReply);
        return;
      }
      WriteReply();
      OthersThanDaemon();
      Do(PublishReply);
    }

    /** The request file is read and then removed. */
    method TakeRequest()
      requires Valid() && daemon.Working? && daemon.queue != [] && Req(daemon.queue[0]) in files
      modifies this
      ensures Valid() && log == old(log)
      ensures daemon.Taken? && daemon.queue == old(daemon).queue[1..]
      ensures daemon.raw.Request? && daemon.raw.id == old(daemon).queue[0]
    {
      Do(ReadRequest);
      OthersThanDaemon();
      Do(Unlink(true));
    }

    method DealWithRequest(value: string) returns (e: Entry)
      requires Valid() && daemon.Taken?
      modifies this
      ensures Valid() && log == old(log) + [e] && old(daemon).raw == Request(e.id, e.cmd)
      ensures e.reply == (if e.cmd.token == secret then Result(value) else Unauthorized)
      ensures daemon == Answering(e.id, e.reply, old(daemon).queue, e.cmd.op == CLOSE)
    {
      Do(Dispatch(value));
      e := log[|log| - 1];
    }

    /** The next request of the listing, from reading it to going on to the one after. */
    method ServeRequest(value: string) returns (e: Entry)
      requires Valid() && daemon.Working? && daemon.queue != [] && Req(daemon.queue[0]) in files
      modifies this
      ensures Valid() && log == old(log) + [e] && e.id == old(daemon).queue[0]
      ensures e.reply == (if e.cmd.token == secret then Result(value) else Unauthorized)
      ensures daemon == if e.cmd.op == CLOSE then Ended else Working(old(daemon).queue[1..])
      ensures reliable ==> ReplyFile(e.id) in files
    {
      TakeRequest();
      OthersThanDaemon();
      e := DealWithRequest(value);
      OthersThanDaemon();
      SendReply();
      GoOn();
    }

    method GoOn()
      requires Valid() && daemon.Answered?
      modifies this
      ensures Valid() && log == old(log) && files == old(files)
      ensures daemon == if old(daemon).last then Ended else Working(old(daemon).queue)
    {
      Do(Continue);
    }

    /** One turn of the inner loop of `_serve_fs_control`: what becomes of the next request in the listing. */
    method ServeNext(value: string) returns (dealt: Option<Entry>)
      requires Valid() && daemon.Working? && daemon.queue != []
      modifies this
      ensures Valid() && (daemon == Working(old(daemon).queue[1..]) || daemon == Ended)
      ensures log == if dealt.Some? then old(log) + [dealt.value] else old(log)
      ensures dealt.Some? ==>
                var e := dealt.value;
                && e.id == old(daemon).queue[0] && Req(e.id) in old(files) && Req(e.id) !in files
                && e.reply == (if e.cmd.token == secret then Result(value) else Unauthorized)
                && e.id in calls && calls[e.id].cmd == e.cmd
      ensures daemon == Ended <==> dealt.Some? && dealt.value.cmd.op == CLOSE
      ensures reliable ==> (dealt.Some? <==> Req(old(daemon).queue[0]) in old(files))
      ensures reliable && dealt.Some? ==> ReplyFile(dealt.value.id) in files
    {
      var readable: bool := *;
      if Req(daemon.queue[0]) !in files || !(readable || reliable) {
        Do(SkipRequest);
        return None;
      }
      var e := ServeRequest(value);
      AnswersAreKnown(Now(), secret, e);
      return Some(e);
    }
  }

  lemma AnswersAreKnown(s: State, secret: string, e: Entry)
    requires Inv(s, secret) && e in s.log
    ensures e.id in s.calls && s.calls[e.id].cmd == e.cmd && Req(e.id) !in s.files
  {
    var i :| 0 <= i < |s.log| && s.log[i] == e;
  }
}
