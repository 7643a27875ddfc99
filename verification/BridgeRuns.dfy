/**
 * What the log of a bridge session (cli/nubi_cli/bridge_agent.py) says about the run that wrote it: which frames
 * were consumed, which were sent and why, and that a session can always do its work.
 */
module BridgeRuns {
  import opened Bridge
  import opened Wrappers

  // ----- the log, counted -----

  /** The frames consumed, in order. */
  function Consumed(log: seq<Event>): seq<Frame> {
    if log == [] then []
    else
      var last := log[|log| - 1];
      Consumed(log[..|log| - 1]) + if last.In? then [last.received] else []
  }

  function Manifests(log: seq<Event>): nat {
    if log == [] then 0
    else
      var last := log[|log| - 1];
      Manifests(log[..|log| - 1]) + if last.Out? && last.frame.Manifest? then 1 else 0
  }

  function Errors(log: seq<Event>): nat {
    if log == [] then 0
    else
      var last := log[|log| - 1];
      Errors(log[..|log| - 1]) + if last.Out? && last.frame.TaskError? then 1 else 0
  }

  function Claims(log: seq<Event>): nat {
    if log == [] then 0 else Claims(log[..|log| - 1]) + if IsClaim(log[|log| - 1]) then 1 else 0
  }

  function Beats(log: seq<Event>): nat {
    if log == [] then 0 else Beats(log[..|log| - 1]) + if IsBeat(log[|log| - 1]) then 1 else 0
  }

  /** The frame `e` right after a claim refuses it: it is neither the grant for the claimed task nor a rejection. */
  predicate Refuses(before: seq<Event>, e: Event) {
    && EndsInClaim(before) && e.In? && e.received != AuthReject
    && e.received != Grant(Str(Last(before).frame.claimed))
  }

  function Refusals(log: seq<Event>): nat {
    if log == [] then 0
    else
      var n := |log| - 1;
      Refusals(log[..n]) + if Refuses(log[..n], log[n]) then 1 else 0
  }

  /** The frame `e`, consumed in the receive loop, assigns a task. */
  predicate Assigns(before: seq<Event>, e: Event) {
    && |before| >= 2 && !EndsInClaim(before) && e.In? && e.received.TaskAssign?
    && e.received.task != Absent && e.received.run != Absent
  }

  function Assignments(log: seq<Event>): nat {
    if log == [] then 0
    else
      var n := |log| - 1;
      Assignments(log[..n]) + if Assigns(log[..n], log[n]) then 1 else 0
  }

  // ----- the run, counted -----

  function Received(trace: seq<Action>): seq<Frame> {
    if trace == [] then []
    else
      var last := trace[|trace| - 1];
      Received(trace[..|trace| - 1]) + if last.Receive? then [last.frame] else []
  }

  /** How often the ingest returned, or raised. */
  function Ends(trace: seq<Action>, ok: bool): nat {
    if trace == [] then 0 else Ends(trace[..|trace| - 1], ok) + if trace[|trace| - 1] == Finish(ok) then 1 else 0
  }

  function Wakes(trace: seq<Action>): nat {
    if trace == [] then 0 else Wakes(trace[..|trace| - 1]) + if trace[|trace| - 1].BeatWake? then 1 else 0
  }

  // ----- one event more -----

  lemma OneMore(log: seq<Event>, e: Event)
    ensures var l := log + [e];
            && Consumed(l) == Consumed(log) + (if e.In? then [e.received] else [])
            && Manifests(l) == Manifests(log) + (if e.Out? && e.frame.Manifest? then 1 else 0)
            && Errors(l) == Errors(log) + (if e.Out? && e.frame.TaskError? then 1 else 0)
            && Claims(l) == Claims(log) + (if IsClaim(e) then 1 else 0)
            && Beats(l) == Beats(log) + (if IsBeat(e) then 1 else 0)
            && Refusals(l) == Refusals(log) + (if Refuses(log, e) then 1 else 0)
            && Assignments(l) == Assignments(log) + (if Assigns(log, e) then 1 else 0)
  {
    assert (log + [e])[..|log|] == log;
  }

  /** What a step adds to the counts of the log. */
  datatype Tally = Tally(
    consumed: seq<Frame>, manifests: nat, errors: nat, claims: nat, beats: nat, refusals: nat, assignments: nat)

  function TallyOf(log: seq<Event>): Tally {
    Tally(Consumed(log), Manifests(log), Errors(log), Claims(log), Beats(log), Refusals(log), Assignments(log))
  }

  lemma SendTally(log: seq<Event>, f: Sent)
    ensures TallyOf(log + [Out(f)]) == match f
              case Manifest(_, _) => TallyOf(log).(manifests := Manifests(log) + 1)
              case TaskError(_) => TallyOf(log).(errors := Errors(log) + 1)
              case TaskClaim(_, _) => TallyOf(log).(claims := Claims(log) + 1)
              case Heartbeat => TallyOf(log).(beats := Beats(log) + 1)
              case Handshake => TallyOf(log)
  {
    OneMore(log, Out(f));
  }

  lemma ConsumeTally(log: seq<Event>, f: Frame)
    ensures TallyOf(log + [In(f)]) ==
            TallyOf(log).(consumed := Consumed(log) + [f],
                          refusals := Refusals(log) + (if Refuses(log, In(f)) then 1 else 0),
                          assignments := Assignments(log) + (if Assigns(log, In(f)) then 1 else 0))
  {
    OneMore(log, In(f));
  }

  /** Every claim goes back to an assignment, every error to a refusal or a failed ingest. */
  ghost predicate Balanced(s: Session, trace: seq<Action>) {
    var t := TallyOf(s.log);
    && t.consumed == Received(trace)
    && t.beats == Wakes(trace)
    && t.manifests == Ends(trace, true)
    && t.errors == Ends(trace, false) + t.refusals
    && t.claims == t.assignments
  }

  lemma TraceStep(trace: seq<Action>, a: Action)
    ensures var l := trace + [a];
            && Received(l) == Received(trace) + (if a.Receive? then [a.frame] else [])
            && Wakes(l) == Wakes(trace) + (if a.BeatWake? then 1 else 0)
            && Ends(l, true) == Ends(trace, true) + (if a == Finish(true) then 1 else 0)
            && Ends(l, false) == Ends(trace, false) + (if a == Finish(false) then 1 else 0)
  {
    assert (trace + [a])[..|trace|] == trace;
  }

  lemma HelloTally(s: Session, f: Frame)
    requires Inv(s) && s.phase.Hello?
    ensures !Refuses(s.log, In(f)) && !Assigns(s.log, In(f))
  {
    assert s.log[..0] == [];
  }

  lemma ListenTally(s: Session, f: Frame)
    requires Inv(s) && s.phase.Listening?
    ensures !Refuses(s.log, In(f))
    ensures Assigns(s.log, In(f)) <==> f.TaskAssign? && f.task != Absent && f.run != Absent
  {
  }

  lemma ClaimedTally(s: Session, f: Frame)
    requires Inv(s) && s.phase.Claimed?
    ensures !Assigns(s.log, In(f))
    ensures Refuses(s.log, In(f)) <==> f != AuthReject && f != Grant(Str(s.phase.task))
  {
  }

  lemma HelloBalance(s: Session, f: Frame)
    requires Inv(s) && s.phase.Hello?
    ensures TallyOf(Apply(s, Receive(f)).log) == TallyOf(s.log).(consumed := Consumed(s.log) + [f])
  {
    ConsumeTally(s.log, f);
    HelloTally(s, f);
  }

  lemma ListenBalance(s: Session, f: Frame)
    requires Inv(s) && s.phase.Listening?
    ensures var taken := if f.TaskAssign? && f.task != Absent && f.run != Absent then 1 else 0;
            TallyOf(Apply(s, Receive(f)).log) ==
            TallyOf(s.log).(consumed := Consumed(s.log) + [f], claims := Claims(s.log) + taken,
                            assignments := Assignments(s.log) + taken)
  {
    ConsumeTally(s.log, f);
    ListenTally(s, f);
    if f.TaskAssign? && f.task != Absent && f.run != Absent {
      SendTally(s.log + [In(f)], TaskClaim(IdText(f.task), IdText(f.run)));
    }
  }

  lemma ClaimedBalance(s: Session, f: Frame)
    requires Inv(s) && s.phase.Claimed?
    ensures var refused := if f != AuthReject && f != Grant(Str(s.phase.task)) then 1 else 0;
            TallyOf(Apply(s, Receive(f)).log) ==
            TallyOf(s.log).(consumed := Consumed(s.log) + [f], errors := Errors(s.log) + refused,
                            refusals := Refusals(s.log) + refused)
  {
    ConsumeTally(s.log, f);
    ClaimedTally(s, f);
    if f != AuthReject && f != Grant(Str(s.phase.task)) {
      SendTally(s.log + [In(f)], TaskError(s.phase.task));
    }
  }

  lemma ReceiveBalance(s: Session, trace: seq<Action>, f: Frame)
    requires Inv(s) && Enabled(s, Receive(f)) && Balanced(s, trace)
    ensures Balanced(Apply(s, Receive(f)), trace + [Receive(f)])
  {
    TraceStep(trace, Receive(f));
    if s.phase.Hello? {
      HelloBalance(s, f);
    } else if s.phase.Listening? {
      ListenBalance(s, f);
    } else {
      ClaimedBalance(s, f);
    }
  }

  lemma FinishBalance(s: Session, trace: seq<Action>, ok: bool)
    requires Enabled(s, Finish(ok)) && Balanced(s, trace)
    ensures Balanced(Apply(s, Finish(ok)), trace + [Finish(ok)])
  {
    TraceStep(trace, Finish(ok));
    SendTally(s.log, if ok then Manifest(s.phase.task, s.phase.run) else TaskError(s.phase.task));
  }

  lemma SendBalance(s: Session, trace: seq<Action>, a: Action)
    requires Enabled(s, a) && Balanced(s, trace) && (a.Open? || a.BeatWake?)
    ensures Balanced(Apply(s, a), trace + [a])
  {
    TraceStep(trace, a);
    SendTally(s.log, if a.Open? then Handshake else Heartbeat);
  }

  lemma QuietKeepsLog(s: Session, a: Action)
    requires Enabled(s, a) && !a.Receive? && !a.Finish? && !a.Open? && !a.BeatWake?
    ensures Apply(s, a).log == s.log
  {
  }

  lemma QuietBalance(s: Session, trace: seq<Action>, a: Action)
    requires Enabled(s, a) && Balanced(s, trace)
    requires !a.Receive? && !a.Finish? && !a.Open? && !a.BeatWake?
    ensures Balanced(Apply(s, a), trace + [a])
  {
    QuietKeepsLog(s, a);
    TraceStep(trace, a);
  }

  lemma StepBalance(s: Session, trace: seq<Action>, a: Action)
    requires Inv(s) && Enabled(s, a) && Balanced(s, trace)
    ensures Balanced(Apply(s, a), trace + [a])
  {
    match a
    case Receive(f) => ReceiveBalance(s, trace, f);
    case Finish(ok) => FinishBalance(s, trace, ok);
    case Open => SendBalance(s, trace, a);
    case BeatWake => SendBalance(s, trace, a);
    case _ => QuietBalance(s, trace, a);
  }

  lemma RunBalance(before: Session, prefix: seq<Action>, a: Action, s: Session, trace: seq<Action>)
    requires Inv(before) && Enabled(before, a) && Balanced(before, prefix)
    requires s == Apply(before, a) && trace == prefix + [a]
    ensures Balanced(s, trace)
  {
    StepBalance(before, prefix, a);
  }

  /** The last step of a run. */
  lemma LastStep(s: Session, trace: seq<Action>) returns (before: Session)
    requires Reachable(s, trace) && trace != []
    ensures var n := |trace| - 1;
            && Reachable(before, trace[..n]) && Enabled(before, trace[n]) && s == Apply(before, trace[n])
            && trace == trace[..n] + [trace[n]] && Inv(before)
  {
    var n := |trace| - 1;
    before :| Reachable(before, trace[..n]) && Enabled(before, trace[n]) && s == Apply(before, trace[n]);
    ReachableInv(before, trace[..n]);
  }

  lemma StartIsBalanced()
    ensures Balanced(INIT, [])
  {
  }

  /**
   * In every run: the log holds the frames received, in order; one heartbeat per wake-up; one manifest per
   * ingest that returned; one error per ingest that raised and per frame that refused a claim; and one claim
   * per task assigned in the loop.
   */
  lemma {:induction false} LogIsBalanced(s: Session, trace: seq<Action>)
    requires Reachable(s, trace)
    ensures Balanced(s, trace)
    decreases |trace|
  {
    if trace == [] {
      StartIsBalanced();
    } else {
      var n := |trace| - 1;
      var before := LastStep(s, trace);
      LogIsBalanced(before, trace[..n]);
      RunBalance(before, trace[..n], trace[n], s, trace);
    }
  }

  /** The end of an ingest is reported under its own claim: a manifest for a result, an error for a failure. */
  lemma EndIsReported(s: Session, trace: seq<Action>, ok: bool) returns (task: string, run: string)
    requires Reachable(s, trace) && Enabled(s, Finish(ok))
    ensures Answered(s.log, task, run, Grant(Str(task)))
    ensures Apply(s, Finish(ok)).log == s.log + [Out(if ok then Manifest(task, run) else TaskError(task))]
  {
    ReachableInv(s, trace);
    task, run := s.phase.task, s.phase.run;
  }

  // ----- a session can do its work -----

  lemma Then(s: Session, trace: seq<Action>, a: Action)
    requires Reachable(s, trace) && Enabled(s, a)
    ensures Reachable(Apply(s, a), trace + [a])
  {
    assert (trace + [a])[..|trace|] == trace;
  }

  /** A session gets to its receive loop by its handshake. */
  lemma CanOpen() returns (s: Session)
    ensures Reachable(s, [] + [Open] + [Receive(HandshakeOk)]) && s.phase.Listening? && s.beat.Scheduled?
    ensures s.log == [Out(Handshake), In(HandshakeOk)]
  {
    Then(INIT, [], Open);
    s := Apply(Apply(INIT, Open), Receive(HandshakeOk));
    Then(Apply(INIT, Open), [] + [Open], Receive(HandshakeOk));
  }

  /** A task assigned to a listening session is claimed, ingested once granted, and reported; then the loop goes on. */
  lemma CanDoTask(s: Session, trace: seq<Action>, a: Id, r: Id, ok: bool) returns (t: Session, longer: seq<Action>)
    requires Reachable(s, trace) && s.phase.Listening? && a != Absent && r != Absent
    ensures Reachable(t, longer)
    ensures t.log == s.log + [In(TaskAssign(a, r))] + [Out(TaskClaim(IdText(a), IdText(r)))]
                     + [In(Grant(Str(IdText(a))))]
                     + [Out(if ok then Manifest(IdText(a), IdText(r)) else TaskError(IdText(a)))]
    ensures if s.stopped then t.phase == Ended(Stopped) else t.phase.Listening?
  {
    var taken := Apply(s, Receive(TaskAssign(a, r)));
    Then(s, trace, Receive(TaskAssign(a, r)));
    var working := Apply(taken, Receive(Grant(Str(IdText(a)))));
    var two := trace + [Receive(TaskAssign(a, r))];
    Then(taken, two, Receive(Grant(Str(IdText(a)))));
    var replying := Apply(working, Finish(ok));
    Then(working, two + [Receive(Grant(Str(IdText(a))))], Finish(ok));
    t := Apply(replying, ReplySent);
    Then(replying, two + [Receive(Grant(Str(IdText(a))))] + [Finish(ok)], ReplySent);
    longer := two + [Receive(Grant(Str(IdText(a))))] + [Finish(ok)] + [ReplySent];
  }

  // ----- stopping -----

  /** A stop is never forgotten. */
  lemma {:induction false} StopIsRemembered(s: Session, trace: seq<Action>)
    requires Reachable(s, trace)
    ensures s.stopped <==> Stop in trace
    decreases |trace|
  {
    if trace != [] {
      var n := |trace| - 1;
      var before :| Reachable(before, trace[..n]) && Enabled(before, trace[n]) && s == Apply(before, trace[n]);
      StopIsRemembered(before, trace[..n]);
      assert trace == trace[..n] + [trace[n]];
    }
  }

  /** Once stopped, the receive loop is not entered again: only a frame already awaited is still handled. */
  lemma StopIsHeeded(s: Session, trace: seq<Action>, a: Action)
    requires Reachable(s, trace) && Stop in trace && Enabled(s, a) && Apply(s, a).phase.Listening?
    ensures s.phase.Listening? && !a.Receive?
  {
    StopIsRemembered(s, trace);
  }

  /** The state after some actions, if they could happen. */
  function After(s: Session, actions: seq<Action>): Option<Session>
    decreases |actions|
  {
    if actions == [] then Some(s)
    else if Enabled(s, actions[0]) then After(Apply(s, actions[0]), actions[1..])
    else None
  }

  predicate MayBeat(b: Beat) {
    b.Sleeping?
  }

  /** After a stop at most one heartbeat is sent, the one that was being waited for. */
  lemma {:induction false} AtMostOneBeatAfterStop(s: Session, actions: seq<Action>)
    requires s.stopped && After(s, actions).Some?
    ensures Beats(After(s, actions).value.log) <= Beats(s.log) + if MayBeat(s.beat) then 1 else 0
    decreases |actions|
  {
    if actions != [] {
      BeatStep(s, actions[0]);
      AtMostOneBeatAfterStop(Apply(s, actions[0]), actions[1..]);
    }
  }

  lemma NoBeat(log: seq<Event>, f: Frame, x: Sent)
    requires x != Heartbeat
    ensures Beats(log + [In(f)]) == Beats(log) && Beats(log + [In(f)] + [Out(x)]) == Beats(log)
  {
    OneMore(log, In(f));
    OneMore(log + [In(f)], Out(x));
  }

  /** Only waking sends a heartbeat. */
  lemma ReceiveSendsNoBeat(s: Session, f: Frame)
    requires Enabled(s, Receive(f))
    ensures Beats(Apply(s, Receive(f)).log) == Beats(s.log)
  {
    if s.phase.Listening? && f.TaskAssign? && f.task != Absent && f.run != Absent {
      NoBeat(s.log, f, TaskClaim(IdText(f.task), IdText(f.run)));
    } else if s.phase.Claimed? {
      NoBeat(s.log, f, TaskError(s.phase.task));
    } else {
      NoBeat(s.log, f, Handshake);
    }
  }

  lemma FinishSendsNoBeat(s: Session, ok: bool)
    requires Enabled(s, Finish(ok))
    ensures Beats(Apply(s, Finish(ok)).log) == Beats(s.log)
  {
    OneMore(s.log, Out(if ok then Manifest(s.phase.task, s.phase.run) else TaskError(s.phase.task)));
  }

  lemma BeatStep(s: Session, a: Action)
    requires s.stopped && Enabled(s, a)
    ensures Apply(s, a).stopped && (MayBeat(Apply(s, a).beat) ==> MayBeat(s.beat))
    ensures Beats(Apply(s, a).log) == Beats(s.log) + if a.BeatWake? then 1 else 0
    ensures a.BeatWake? ==> MayBeat(s.beat) && !MayBeat(Apply(s, a).beat)
  {
    match a
    case Open => OneMore(s.log, Out(Handshake));
    case BeatWake => OneMore(s.log, Out(Heartbeat));
    case Finish(ok) => FinishSendsNoBeat(s, ok);
    case Receive(f) => ReceiveSendsNoBeat(s, f);
    case _ =>
  }
}
