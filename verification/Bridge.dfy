/**
 * The control channel of cli/nubi_cli/bridge_agent.py as a step machine: the main task, the heartbeat task
 * and their log.
 */
module Bridge {
  import opened Text

  // ----- frames -----

  /** An id as it comes out of JSON. */
  datatype Id = Str(s: string) | Num(n: nat) | Absent

  datatype Frame =
    | HandshakeOk
    | AuthReject
    | HeartbeatOk
    | TaskAssign(task: Id, run: Id)
    | Grant(granted: Id)
    | OtherFrame

  datatype Sent =
    | Handshake
    | Heartbeat
    | TaskClaim(claimed: string, run: string)
    | Manifest(done: string, run: string)
    | TaskError(failed: string)

  /** What the agent starts to send and what it consumes, in order. */
  datatype Event = Out(frame: Sent) | In(received: Frame)

  /** `str(value)` */
  function IdText(id: Id): string
    requires id != Absent
  {
    if id.Str? then id.s else OfNat(id.n)
  }

  // ----- the session -----

  datatype Reason = Revoked | Stopped | Failed

  /** Where the main task is suspended. */
  datatype Phase =
    | Idle
    | Hello                              // handshake sent, waiting for its reply
    | Listening                          // in the receive loop
    | Claimed(task: string, run: string) // claim sent, waiting for the grant
    | Working(task: string, run: string) // ingest running
    | Replying                           // manifest or error being sent
    | Ended(why: Reason)

  /** Where the heartbeat task is; Off until run() starts it. */
  datatype Beat = Off | Scheduled | Sleeping | Sending | Dead

  datatype Session = Session(phase: Phase, beat: Beat, stopped: bool, log: seq<Event>)

  datatype Action =
    | Open                 // handshake() is called
    | Receive(frame: Frame)
    | Fail                 // the awaited send or receive raises
    | Finish(ok: bool)     // the ingest returns or raises
    | ReplySent
    | Stop                 // stop() is called
    | BeatStart | BeatWake | BeatSent | BeatFail

  const INIT := Session(Idle, Off, false, [])

  predicate InRun(p: Phase) {
    p.Listening? || p.Claimed? || p.Working? || p.Replying?
  }

  predicate Enabled(s: Session, a: Action) {
    match a
    case Open => s.phase.Idle?
    case Receive(_) => s.phase.Hello? || s.phase.Listening? || s.phase.Claimed?
    case Fail => s.phase.Hello? || InRun(s.phase)
    case Finish(_) => s.phase.Working?
    case ReplySent => s.phase.Replying?
    case Stop => true
    case BeatStart => s.beat.Scheduled?
    case BeatWake => s.beat.Sleeping?
    case BeatSent => s.beat.Sending?
    case BeatFail => s.beat.Sending?
  }

  /** Leaving the loop cancels the heartbeat before anything else can run. */
  function End(s: Session, why: Reason): Session {
    s.(phase := Ended(why), beat := Dead)
  }

  /** The top of the receive loop. */
  function Top(s: Session): Session {
    if s.stopped then End(s, Stopped) else s.(phase := Listening)
  }

  function Send(s: Session, f: Sent): Session {
    s.(log := s.log + [Out(f)])
  }

  /** One inbound frame, handled up to the next await. */
  function Consume(s0: Session, f: Frame): Session
    requires s0.phase.Hello? || s0.phase.Listening? || s0.phase.Claimed?
  {
    var s := s0.(log := s0.log + [In(f)]);
    match s.phase
    case Hello =>
      if f.HandshakeOk? then Top(s.(beat := Scheduled)) else End(s, Revoked)
    case Listening =>
      (match f
       case AuthReject => End(s, Revoked)
       case TaskAssign(task, run) =>
         if task == Absent || run == Absent then End(s, Failed)
         else Send(s, TaskClaim(IdText(task), IdText(run))).(phase := Claimed(IdText(task), IdText(run)))
       case _ => Top(s))
    case Claimed(task, run) =>
      if f.AuthReject? then End(s, Revoked)
      else if f != Grant(Str(task)) then Send(s, TaskError(task)).(phase := Replying)
      else s.(phase := Working(task, run))
  }

  function Apply(s: Session, a: Action): Session
    requires Enabled(s, a)
  {
    match a
    case Open => Send(s, Handshake).(phase := Hello)
    case Receive(f) => Consume(s, f)
    case Fail => End(s, Failed)
    case Finish(ok) =>
      Send(s, if ok then Manifest(s.phase.task, s.phase.run) else TaskError(s.phase.task)).(phase := Replying)
    case ReplySent => Top(s)
    case Stop => s.(stopped := true)
    case BeatStart => s.(beat := if s.stopped then Dead else Sleeping)
    case BeatWake => Send(s, Heartbeat).(beat := Sending)
    case BeatSent => s.(beat := if s.stopped then Dead else Sleeping)
    case BeatFail => s.(beat := Dead)
  }

  /** Every interleaving: any sequence of enabled actions from the start. */
  ghost predicate Reachable(s: Session, trace: seq<Action>)
    decreases |trace|
  {
    if trace == [] then s == INIT
    else
      var n := |trace| - 1;
      exists before :: Reachable(before, trace[..n]) && Enabled(before, trace[n]) && s == Apply(before, trace[n])
  }

  // ----- what is claimed about logs -----

  predicate IsBeat(e: Event) {
    e == Out(Heartbeat)
  }

  /** The log up to and including its last event that is not a heartbeat. */
  function Main(log: seq<Event>): (r: seq<Event>)
    ensures |r| <= |log| && r == log[..|r|]
    ensures r != [] ==> !IsBeat(r[|r| - 1])
  {
    if log == [] then [] else if IsBeat(log[|log| - 1]) then Main(log[..|log| - 1]) else log
  }

  /** The last event of `log` that is not a heartbeat. */
  function Last(log: seq<Event>): Event
    requires Main(log) != []
  {
    Main(log)[|Main(log)| - 1]
  }

  /** What was there before that event. */
  function Earlier(log: seq<Event>): seq<Event>
    requires Main(log) != []
  {
    Main(log)[..|Main(log)| - 1]
  }

  /** The session has been accepted: the handshake and its acknowledgement open the log. */
  predicate Accepted(log: seq<Event>) {
    |log| >= 2 && log[0] == Out(Handshake) && log[1] == In(HandshakeOk)
  }

  predicate NoReject(log: seq<Event>) {
    forall i :: 0 <= i < |log| ==> log[i] != In(AuthReject)
  }

  /** The log ends in a claim for this task that has not been answered yet. */
  predicate OpenClaim(log: seq<Event>, task: string, run: string) {
    Main(log) != [] && Last(log) == Out(TaskClaim(task, run))
  }

  /** The last two events are an open claim and the frame consumed right after it. */
  predicate Answered(log: seq<Event>, task: string, run: string, f: Frame) {
    Main(log) != [] && Last(log) == In(f) && OpenClaim(Earlier(log), task, run)
  }

  predicate EndsInClaim(log: seq<Event>) {
    Main(log) != [] && Last(log).Out? && Last(log).frame.TaskClaim?
  }

  /** The last event is neither an unanswered claim nor the frame consumed right after one. */
  predicate Settled(log: seq<Event>) {
    Main(log) != [] && !EndsInClaim(log) && (Last(log).In? ==> !EndsInClaim(Earlier(log)))
  }

  /** What must have happened before the agent may start to send this frame. */
  ghost predicate MaySend(before: seq<Event>, f: Sent) {
    match f
    case Handshake => before == []
    case Heartbeat => Accepted(before) && NoReject(before)
    case TaskClaim(task, run) =>
      && Accepted(before) && NoReject(before) && Settled(before)
      && exists a: Id, r: Id :: Last(before) == In(TaskAssign(a, r)) && a != Absent && r != Absent
                                && task == IdText(a) && run == IdText(r)
    case Manifest(task, run) =>
      && Accepted(before) && NoReject(before) && Answered(before, task, run, Grant(Str(task)))
    case TaskError(task) =>
      && Accepted(before) && NoReject(before)
      && exists run: string, g: Frame :: Answered(before, task, run, g) && g != AuthReject
  }

  /** A frame is consumed in reply to the handshake, in the loop, or right after a claim, and only one there. */
  predicate MayReceive(before: seq<Event>) {
    Main(before) != [] && NoReject(before) && (EndsInClaim(before) || Settled(before))
  }

  ghost predicate Allowed(before: seq<Event>, e: Event) {
    if e.Out? then MaySend(before, e.frame) else MayReceive(before)
  }

  /** Every frame that was sent or consumed was allowed by what came before it. */
  ghost predicate Lawful(log: seq<Event>) {
    log == [] || (Lawful(log[..|log| - 1]) && Allowed(log[..|log| - 1], log[|log| - 1]))
  }

  // ----- the invariant -----

  ghost predicate PhaseFits(s: Session) {
    match s.phase
    case Idle => s.log == []
    case Hello => s.log == [Out(Handshake)]
    case Listening => Accepted(s.log) && NoReject(s.log) && Settled(s.log)
    case Claimed(task, run) => Accepted(s.log) && NoReject(s.log) && OpenClaim(s.log, task, run)
    case Working(task, run) => Accepted(s.log) && NoReject(s.log) && Answered(s.log, task, run, Grant(Str(task)))
    case Replying => Accepted(s.log) && NoReject(s.log) && Settled(s.log)
    case Ended(_) =>
      && s.log != [] && s.log[0] == Out(Handshake)
      && forall i :: 0 <= i < |s.log| - 1 ==> s.log[i] != In(AuthReject)
  }

  ghost predicate Inv(s: Session) {
    && Lawful(s.log)
    && PhaseFits(s)
    && (s.beat.Scheduled? || s.beat.Sleeping? || s.beat.Sending? ==> InRun(s.phase))
    && (s.beat.Off? ==> s.phase.Idle? || s.phase.Hello?)
  }

  lemma LawfulAppend(log: seq<Event>, e: Event)
    requires Lawful(log) && Allowed(log, e)
    ensures Lawful(log + [e])
  {
    assert (log + [e])[..|log|] == log;
  }

  lemma {:induction false} LawfulAt(log: seq<Event>, j: nat)
    requires Lawful(log) && j < |log|
    ensures Allowed(log[..j], log[j])
  {
    var n := |log| - 1;
    if j < n {
      LawfulAt(log[..n], j);
      assert log[..n][..j] == log[..j];
    }
  }

  /** A heartbeat changes nothing that the other frames look at. */
  lemma BeatIsInvisible(log: seq<Event>)
    ensures Main(log + [Out(Heartbeat)]) == Main(log)
    ensures Main(log) != [] ==>
              Last(log + [Out(Heartbeat)]) == Last(log) && Earlier(log + [Out(Heartbeat)]) == Earlier(log)
  {
    var l := log + [Out(Heartbeat)];
    assert l[..|l| - 1] == log;
  }

  lemma MainEvent(log: seq<Event>, e: Event)
    requires !IsBeat(e)
    ensures Main(log + [e]) == log + [e] && Last(log + [e]) == e && Earlier(log + [e]) == log
  {
    assert (log + [e])[..|log|] == log;
  }

  lemma BeatKeepsClaims(log: seq<Event>, t: string, r: string, f: Frame)
    ensures OpenClaim(log + [Out(Heartbeat)], t, r) <==> OpenClaim(log, t, r)
    ensures Answered(log + [Out(Heartbeat)], t, r, f) <==> Answered(log, t, r, f)
  {
    BeatIsInvisible(log);
  }

  lemma BeatKeepsSettled(log: seq<Event>)
    requires Settled(log)
    ensures Settled(log + [Out(Heartbeat)])
  {
    BeatIsInvisible(log);
  }

  lemma StillAccepted(log: seq<Event>, e: Event)
    requires Accepted(log) && NoReject(log)
    ensures Accepted(log + [e]) && (e != In(AuthReject) ==> NoReject(log + [e]))
  {
  }

  lemma BeatKeepsLog(log: seq<Event>)
    requires Lawful(log) && Accepted(log) && NoReject(log)
    ensures var l := log + [Out(Heartbeat)]; Lawful(l) && Accepted(l) && NoReject(l)
  {
    StillAccepted(log, Out(Heartbeat));
    LawfulAppend(log, Out(Heartbeat));
  }

  lemma WakeKeepsInv(s: Session)
    requires Inv(s) && s.beat.Sleeping?
    ensures Inv(Apply(s, BeatWake))
  {
    BeatKeepsLog(s.log);
    if s.phase.Claimed? {
      BeatKeepsClaims(s.log, s.phase.task, s.phase.run, OtherFrame);
    } else if s.phase.Working? {
      BeatKeepsClaims(s.log, s.phase.task, s.phase.run, Grant(Str(s.phase.task)));
    } else {
      BeatKeepsSettled(s.log);
    }
  }

  /** Listening again: the last event is a frame that answers no claim, or a reply. */
  lemma NothingOpen(log: seq<Event>, e: Event)
    requires !IsBeat(e) && !(e.Out? && e.frame.TaskClaim?)
    requires e.In? ==> !EndsInClaim(log)
    ensures Settled(log + [e])
  {
    MainEvent(log, e);
  }

  lemma HelloKeepsInv(s: Session, f: Frame)
    requires Inv(s) && s.phase.Hello?
    ensures Inv(Apply(s, Receive(f)))
  {
    assert s.log[..0] == [];
    MainEvent([], Out(Handshake));
    assert [] + [Out(Handshake)] == s.log;
    LawfulAppend(s.log, In(f));
    NothingOpen(s.log, In(f));
    assert s.log + [In(f)] == [Out(Handshake), In(f)];
  }

  lemma ListenedLog(log: seq<Event>, f: Frame)
    requires Lawful(log) && Accepted(log) && NoReject(log) && Settled(log)
    ensures var l := log + [In(f)];
            Lawful(l) && Accepted(l) && Settled(l) && Last(l) == In(f) && (f != AuthReject ==> NoReject(l))
  {
    LawfulAppend(log, In(f));
    MainEvent(log, In(f));
    StillAccepted(log, In(f));
    NothingOpen(log, In(f));
  }

  lemma ClaimedLog(log: seq<Event>, f: Frame)
    requires Lawful(log) && Accepted(log) && NoReject(log) && Settled(log) && Last(log) == In(f)
    requires f.TaskAssign? && f.task != Absent && f.run != Absent
    ensures var l := log + [Out(TaskClaim(IdText(f.task), IdText(f.run)))];
            Lawful(l) && Accepted(l) && NoReject(l) && OpenClaim(l, IdText(f.task), IdText(f.run))
  {
    var claim := TaskClaim(IdText(f.task), IdText(f.run));
    assert MaySend(log, claim);
    LawfulAppend(log, Out(claim));
    MainEvent(log, Out(claim));
    StillAccepted(log, Out(claim));
  }

  lemma RejectsKeepInv(s: Session)
    requires Inv(s) && s.phase.Listening?
    ensures Inv(Apply(s, Receive(AuthReject)))
  {
    var log := s.log + [In(AuthReject)];
    LawfulAppend(s.log, In(AuthReject));
    assert log[0] == s.log[0] && forall i :: 0 <= i < |log| - 1 ==> log[i] == s.log[i];
  }

  /** A session waiting for the answer to an open claim. */
  lemma WaitingKeepsInv(s: Session)
    requires Lawful(s.log) && Accepted(s.log) && NoReject(s.log) && s.phase.Claimed?
    requires OpenClaim(s.log, s.phase.task, s.phase.run) && !s.beat.Off?
    ensures Inv(s)
  {
  }

  lemma AssignedLog(log: seq<Event>, f: Frame)
    requires Lawful(log) && Accepted(log) && NoReject(log) && Settled(log)
    requires f.TaskAssign? && f.task != Absent && f.run != Absent
    ensures var l := log + [In(f)] + [Out(TaskClaim(IdText(f.task), IdText(f.run)))];
            Lawful(l) && Accepted(l) && NoReject(l) && OpenClaim(l, IdText(f.task), IdText(f.run))
  {
    ListenedLog(log, f);
    ClaimedLog(log + [In(f)], f);
  }

  lemma AssignsKeepInv(s: Session, f: Frame)
    requires Inv(s) && s.phase.Listening? && f.TaskAssign? && f.task != Absent && f.run != Absent
    ensures Inv(Apply(s, Receive(f)))
  {
    AssignedLog(s.log, f);
    WaitingKeepsInv(Apply(s, Receive(f)));
  }

  lemma TopKeepsInv(s: Session)
    requires Lawful(s.log) && Accepted(s.log) && NoReject(s.log) && Settled(s.log)
    requires !s.beat.Off? && (s.phase.Listening? || s.phase.Replying?)
    ensures Inv(Top(s))
  {
  }

  /** A session that is over. */
  lemma EndedKeepsInv(s: Session)
    requires Lawful(s.log) && Accepted(s.log) && NoReject(s.log) && s.phase.Ended? && s.beat.Dead?
    ensures Inv(s)
  {
  }

  lemma OtherFrameKeepsInv(s: Session, f: Frame)
    requires Inv(s) && s.phase.Listening? && f != AuthReject && !f.TaskAssign?
    ensures Inv(Apply(s, Receive(f)))
  {
    ListenedLog(s.log, f);
    var t := s.(log := s.log + [In(f)]);
    TopKeepsInv(t);
    assert Apply(s, Receive(f)) == Top(t);
  }

  lemma BadAssignKeepsInv(s: Session, f: Frame)
    requires Inv(s) && s.phase.Listening? && f.TaskAssign? && (f.task == Absent || f.run == Absent)
    ensures Inv(Apply(s, Receive(f)))
  {
    ListenedLog(s.log, f);
    EndedKeepsInv(Apply(s, Receive(f)));
  }

  lemma ListeningKeepsInv(s: Session, f: Frame)
    requires Inv(s) && s.phase.Listening?
    ensures Inv(Apply(s, Receive(f)))
  {
    if f == AuthReject {
      RejectsKeepInv(s);
    } else if f.TaskAssign? && f.task != Absent && f.run != Absent {
      AssignsKeepInv(s, f);
    } else if f.TaskAssign? {
      BadAssignKeepsInv(s, f);
    } else {
      OtherFrameKeepsInv(s, f);
    }
  }

  /** A reply to an answered claim is lawful, and the agent is settled after it. */
  lemma ReplyIsLawful(log: seq<Event>, task: string, run: string, f: Frame, reply: Sent)
    requires Lawful(log) && Accepted(log) && NoReject(log) && Answered(log, task, run, f) && f != AuthReject
    requires reply == TaskError(task) || (reply == Manifest(task, run) && f == Grant(Str(task)))
    ensures var l := log + [Out(reply)]; Lawful(l) && Accepted(l) && NoReject(l) && Settled(l)
  {
    assert MaySend(log, reply);
    LawfulAppend(log, Out(reply));
    StillAccepted(log, Out(reply));
    NothingOpen(log, Out(reply));
  }

  /** The frame consumed right after a claim. */
  lemma ClaimConsumed(log: seq<Event>, task: string, run: string, f: Frame)
    requires Lawful(log) && Accepted(log) && NoReject(log) && OpenClaim(log, task, run)
    ensures var l := log + [In(f)];
            Lawful(l) && Accepted(l) && Answered(l, task, run, f) && (f != AuthReject ==> NoReject(l))
  {
    LawfulAppend(log, In(f));
    MainEvent(log, In(f));
    StillAccepted(log, In(f));
  }

  lemma RejectedKeepsInv(s: Session)
    requires Inv(s) && s.phase.Claimed?
    ensures Inv(Apply(s, Receive(AuthReject)))
  {
    var log := s.log + [In(AuthReject)];
    ClaimConsumed(s.log, s.phase.task, s.phase.run, AuthReject);
    assert forall i :: 0 <= i < |log| - 1 ==> log[i] == s.log[i];
  }

  lemma GrantedKeepsInv(s: Session)
    requires Inv(s) && s.phase.Claimed?
    ensures Inv(Apply(s, Receive(Grant(Str(s.phase.task)))))
  {
    ClaimConsumed(s.log, s.phase.task, s.phase.run, Grant(Str(s.phase.task)));
  }

  lemma RefusedKeepsInv(s: Session, f: Frame)
    requires Inv(s) && s.phase.Claimed? && f != AuthReject && f != Grant(Str(s.phase.task))
    ensures Inv(Apply(s, Receive(f)))
  {
    var task, run := s.phase.task, s.phase.run;
    ClaimConsumed(s.log, task, run, f);
    ReplyIsLawful(s.log + [In(f)], task, run, f, TaskError(task));
  }

  lemma ClaimedKeepsInv(s: Session, f: Frame)
    requires Inv(s) && s.phase.Claimed?
    ensures Inv(Apply(s, Receive(f)))
  {
    if f == AuthReject {
      RejectedKeepsInv(s);
    } else if f == Grant(Str(s.phase.task)) {
      GrantedKeepsInv(s);
    } else {
      RefusedKeepsInv(s, f);
    }
  }

  /** A session that is sending its answer. */
  lemma SendingKeepsInv(s: Session)
    requires Lawful(s.log) && Accepted(s.log) && NoReject(s.log) && Settled(s.log) && s.phase.Replying? && !s.beat.Off?
    ensures Inv(s)
  {
  }

  lemma FinishKeepsInv(s: Session, ok: bool)
    requires Inv(s) && s.phase.Working?
    ensures Inv(Apply(s, Finish(ok)))
  {
    var task, run := s.phase.task, s.phase.run;
    ReplyIsLawful(s.log, task, run, Grant(Str(task)), if ok then Manifest(task, run) else TaskError(task));
    SendingKeepsInv(Apply(s, Finish(ok)));
  }

  lemma OpenKeepsInv(s: Session)
    requires Inv(s) && s.phase.Idle?
    ensures Inv(Apply(s, Open))
  {
    LawfulAppend(s.log, Out(Handshake));
  }

  /** Steps of the session that neither send nor consume anything. */
  lemma QuietKeepsInv(s: Session, a: Action)
    requires Inv(s) && Enabled(s, a) && (a.Fail? || a.ReplySent? || a.Stop?)
    ensures Inv(Apply(s, a))
  {
    if a.ReplySent? {
      TopKeepsInv(s);
    }
  }

  /** Steps of the heartbeat other than sending. */
  lemma BeatKeepsInv(s: Session, a: Action)
    requires Inv(s) && Enabled(s, a) && (a.BeatStart? || a.BeatSent? || a.BeatFail?)
    ensures Inv(Apply(s, a))
  {
  }

  lemma ReceiveKeepsInv(s: Session, f: Frame)
    requires Inv(s) && Enabled(s, Receive(f))
    ensures Inv(Apply(s, Receive(f)))
  {
    if s.phase.Hello? {
      HelloKeepsInv(s, f);
    } else if s.phase.Listening? {
      ListeningKeepsInv(s, f);
    } else {
      ClaimedKeepsInv(s, f);
    }
  }

  /** Every step of either task keeps the invariant. */
  lemma StepKeepsInv(s: Session, a: Action)
    requires Inv(s) && Enabled(s, a)
    ensures Inv(Apply(s, a))
  {
    match a
    case Open => OpenKeepsInv(s);
    case Receive(f) => ReceiveKeepsInv(s, f);
    case Finish(ok) => FinishKeepsInv(s, ok);
    case BeatWake => WakeKeepsInv(s);
    case Fail => QuietKeepsInv(s, a);
    case ReplySent => QuietKeepsInv(s, a);
    case Stop => QuietKeepsInv(s, a);
    case _ => BeatKeepsInv(s, a);
  }

  lemma {:induction false} ReachableInv(s: Session, trace: seq<Action>)
    requires Reachable(s, trace)
    ensures Inv(s)
    decreases |trace|
  {
    if trace != [] {
      var n := |trace| - 1;
      var before :| Reachable(before, trace[..n]) && Enabled(before, trace[n]) && s == Apply(before, trace[n]);
      ReachableInv(before, trace[..n]);
      StepKeepsInv(before, trace[n]);
    }
  }

  // ----- what holds in every run -----

  /** Nothing but the handshake is sent before the acknowledgement, and the handshake only once. */
  lemma NothingBeforeHandshakeOk(s: Session, trace: seq<Action>, j: nat)
    requires Reachable(s, trace) && j < |s.log| && s.log[j].Out?
    ensures s.log[j] == Out(Handshake) <==> j == 0
    ensures j > 0 ==> j > 1 && s.log[0] == Out(Handshake) && s.log[1] == In(HandshakeOk)
  {
    ReachableInv(s, trace);
    LawfulAt(s.log, j);
  }

  /** A rejection is the last event of its session: no frame is started and none consumed after it. */
  lemma NothingAfterReject(s: Session, trace: seq<Action>, i: nat)
    requires Reachable(s, trace) && i < |s.log| && s.log[i] == In(AuthReject)
    ensures i == |s.log| - 1 && s.phase.Ended? && s.beat != Sleeping && s.beat != Scheduled
  {
    ReachableInv(s, trace);
  }

  /**
   * A manifest for a task answers the grant for that very task, which was the frame consumed right
   * after the claim; a task error answers some frame consumed right after the claim.
   * (Heartbeats may stand anywhere between.)
   */
  lemma RepliesAnswerClaims(s: Session, trace: seq<Action>, j: nat)
    requires Reachable(s, trace) && j < |s.log|
    ensures s.log[j].Out? && s.log[j].frame.Manifest? ==>
              Answered(s.log[..j], s.log[j].frame.done, s.log[j].frame.run, Grant(Str(s.log[j].frame.done)))
    ensures s.log[j].Out? && s.log[j].frame.TaskError? ==>
              exists run: string, g: Frame :: Answered(s.log[..j], s.log[j].frame.failed, run, g) && g != AuthReject
    ensures s.log[j].Out? && s.log[j].frame.TaskClaim? ==>
              (Main(s.log[..j]) != [] && Last(s.log[..j]).In? && Last(s.log[..j]).received.TaskAssign?)
  {
    ReachableInv(s, trace);
    LawfulAt(s.log, j);
  }

  /** Only heartbeats stand between two positions. */
  predicate OnlyBeats(log: seq<Event>, from: nat, to: nat)
    requires to <= |log|
  {
    forall m :: from <= m < to ==> IsBeat(log[m])
  }

  lemma {:induction false} MainAt(log: seq<Event>, i: nat, j: nat)
    requires i < j <= |log| && !IsBeat(log[i]) && OnlyBeats(log, i + 1, j)
    ensures Main(log[..j]) == log[..i + 1]
    decreases j
  {
    if j > i + 1 {
      assert log[..j][..j - 1] == log[..j - 1];
      MainAt(log, i, j - 1);
    }
  }

  lemma ClaimedAt(log: seq<Event>, i: nat, j: nat)
    requires i < j <= |log| && !IsBeat(log[i]) && OnlyBeats(log, i + 1, j)
    ensures Main(log[..j]) != [] && Last(log[..j]) == log[i] && Earlier(log[..j]) == log[..i]
  {
    MainAt(log, i, j);
    assert log[..i + 1][..i] == log[..i];
  }

  lemma AfterClaim(before: seq<Event>, e: Event)
    requires Allowed(before, e) && !IsBeat(e) && EndsInClaim(before)
    ensures e.In?
  {
  }

  lemma AfterAnswer(before: seq<Event>, e: Event, task: string, run: string, f: Frame)
    requires Allowed(before, e) && !IsBeat(e) && Answered(before, task, run, f)
    ensures e == Out(TaskError(task)) || (e == Out(Manifest(task, run)) && f == Grant(Str(task)))
    ensures f != AuthReject
  {
  }

  /**
   * After a claim the agent consumes exactly one frame and then sends exactly one reply for that task:
   * the manifest only if the frame was its grant, the error otherwise or when the ingest failed.
   */
  lemma ClaimIsAnswered(s: Session, trace: seq<Action>, i: nat, j: nat, k: nat)
    requires Reachable(s, trace) && i < j < k < |s.log|
    requires s.log[i].Out? && s.log[i].frame.TaskClaim?
    requires !IsBeat(s.log[j]) && OnlyBeats(s.log, i + 1, j)
    requires !IsBeat(s.log[k]) && OnlyBeats(s.log, j + 1, k)
    ensures s.log[j].In? && s.log[j] != In(AuthReject)
    ensures var task, run := s.log[i].frame.claimed, s.log[i].frame.run;
            || s.log[k] == Out(TaskError(task))
            || (s.log[k] == Out(Manifest(task, run)) && s.log[j] == In(Grant(Str(task))))
  {
    ReachableInv(s, trace);
    LawfulAt(s.log, j);
    LawfulAt(s.log, k);
    ClaimedAt(s.log, i, j);
    AfterClaim(s.log[..j], s.log[j]);
    ClaimedAt(s.log, j, k);
    AfterAnswer(s.log[..k], s.log[k], s.log[i].frame.claimed, s.log[i].frame.run, s.log[j].received);
  }

  /** The first position from `i` on that is no heartbeat. */
  function NextMain(log: seq<Event>, i: nat): (j: nat)
    requires i <= |log|
    ensures i <= j <= |log| && OnlyBeats(log, i, j) && (j < |log| ==> !IsBeat(log[j]))
    decreases |log| - i
  {
    if i == |log| || !IsBeat(log[i]) then i else NextMain(log, i + 1)
  }

  /** The claim at `i` is followed by a consumed frame and a reply. */
  predicate HasReply(log: seq<Event>, i: nat)
    requires i < |log|
  {
    var j := NextMain(log, i + 1);
    j < |log| && NextMain(log, j + 1) < |log|
  }

  predicate IsClaim(e: Event) {
    e.Out? && e.frame.TaskClaim?
  }

  predicate IsReply(e: Event) {
    e.Out? && (e.frame.Manifest? || e.frame.TaskError?)
  }

  /**
   * The event at `k` answers the claim at `i`: for the claim's task and run, a manifest for its grant
   * consumed in between, or an error.
   */
  ghost predicate AnswersAt(log: seq<Event>, i: nat, k: nat)
    requires i < k < |log| && IsClaim(log[i])
  {
    var task, run := log[i].frame.claimed, log[i].frame.run;
    || log[k] == Out(TaskError(task))
    || (log[k] == Out(Manifest(task, run)) && exists j :: i < j < k && log[j] == In(Grant(Str(task))))
  }

  /** The claim at `i` has one reply, and any other reply behind it comes after a later claim. */
  ghost predicate ExactlyOneReply(log: seq<Event>, i: nat)
    requires i < |log| && IsClaim(log[i])
  {
    exists k :: i < k < |log| && AnswersAt(log, i, k) && OthersLater(log, i, k)
  }

  ghost predicate OthersLater(log: seq<Event>, i: nat, k: nat)
    requires i < k < |log|
  {
    forall m :: i < m < |log| && m != k && IsReply(log[m]) ==> exists c :: i < c < m && IsClaim(log[c])
  }

  /** The claim that a reply goes back to: one consumed frame lies between them, and heartbeats. */
  lemma ClaimOf(log: seq<Event>, m: nat) returns (c: nat, p: nat)
    requires Lawful(log) && m < |log| && IsReply(log[m])
    ensures c < p < m && IsClaim(log[c]) && log[p].In?
    ensures OnlyBeats(log, c + 1, p) && OnlyBeats(log, p + 1, m)
  {
    LawfulAt(log, m);
    var before := log[..m];
    assert Main(before) != [] && Last(before).In? && EndsInClaim(Earlier(before));
    p := LastAt(before);
    assert Earlier(before) == log[..p];
    c := LastAt(log[..p]);
    assert log[..p][c] == log[c] && before[p] == log[p];
    assert forall x :: c + 1 <= x < p ==> log[..p][x] == log[x];
    assert forall x :: p + 1 <= x < m ==> before[x] == log[x];
  }

  /** Where the last main event of a log stands. */
  lemma {:induction false} LastAt(log: seq<Event>) returns (p: nat)
    requires Main(log) != []
    ensures p < |log| && log[p] == Last(log) && Earlier(log) == log[..p] && OnlyBeats(log, p + 1, |log|)
  {
    p := |Main(log)| - 1;
    if p < |log| - 1 {
      var n := |log| - 1;
      var q := LastAt(log[..n]);
      assert Main(log) == Main(log[..n]);
      assert forall x :: q + 1 <= x < n ==> log[..n][x] == log[x];
    }
  }

  /** A reply other than the one right after the claim at `i` has a claim of its own in between. */
  lemma OtherReplyLater(log: seq<Event>, i: nat, j: nat, k: nat, m: nat)
    requires Lawful(log) && i < j < k < |log| && IsClaim(log[i]) && log[j].In? && !IsBeat(log[k])
    requires OnlyBeats(log, i + 1, j) && OnlyBeats(log, j + 1, k)
    requires i < m < |log| && m != k && IsReply(log[m])
    ensures exists c :: i < c < m && IsClaim(log[c])
  {
    var c, p := ClaimOf(log, m);
    assert i < c;
  }

  /** A log that ends in a claim, or in a claim and one consumed frame, is not settled. */
  lemma OpenIsNotSettled(log: seq<Event>, i: nat, j: nat)
    requires Lawful(log) && i < j <= |log| && log[i].Out? && log[i].frame.TaskClaim? && OnlyBeats(log, i + 1, j)
    requires j < |log| ==> !IsBeat(log[j]) && OnlyBeats(log, j + 1, |log|)
    ensures !Settled(log)
  {
    assert log[..|log|] == log;
    ClaimedAt(log, i, j);
    if j < |log| {
      LawfulAt(log, j);
      AfterClaim(log[..j], log[j]);
      ClaimedAt(log, j, |log|);
    }
  }

  lemma SettledIsAnswered(log: seq<Event>, i: nat)
    requires Lawful(log) && Settled(log)
    requires i < |log| && log[i].Out? && log[i].frame.TaskClaim?
    ensures HasReply(log, i)
  {
    var j := NextMain(log, i + 1);
    if j == |log| || NextMain(log, j + 1) == |log| {
      OpenIsNotSettled(log, i, j);
    }
  }

  lemma ListeningIsSettled(s: Session, trace: seq<Action>)
    requires Reachable(s, trace) && s.phase.Listening?
    ensures Lawful(s.log) && Settled(s.log)
  {
    ReachableInv(s, trace);
  }

  /**
   * Whenever the agent listens again, every claim it has made has exactly one reply: one event behind it
   * answers it, and every other reply behind it comes after another claim.
   */
  lemma EveryClaimHasOneReply(s: Session, trace: seq<Action>, i: nat)
    requires Reachable(s, trace) && s.phase.Listening?
    requires i < |s.log| && IsClaim(s.log[i])
    ensures ExactlyOneReply(s.log, i)
  {
    ListeningIsSettled(s, trace);
    SettledIsAnswered(s.log, i);
    var j := NextMain(s.log, i + 1);
    var k := NextMain(s.log, j + 1);
    ClaimIsAnswered(s, trace, i, j, k);
    assert AnswersAt(s.log, i, k);
    forall m | i < m < |s.log| && m != k && IsReply(s.log[m]) ensures exists c :: i < c < m && IsClaim(s.log[c]) {
      OtherReplyLater(s.log, i, j, k, m);
    }
    assert OthersLater(s.log, i, k);
  }
}
