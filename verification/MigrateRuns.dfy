/** What runs of the migration runner reach: where the applied versions come from, and that runs come to an end. */
module MigrateRuns {
  import opened Names
  import opened Migrate
  import opened Wrappers

  /** What is recorded was there before or stands in somebody's plan. */
  lemma {:induction false} RecordedIsPlanned(plans: Pid -> seq<string>, s0: State, s: State, trace: seq<Event>,
                                             v: string)
    requires AtRest(s0) && Reachable(plans, s0, s, trace) && (forall p: Pid :: Distinct(plans(p)))
    requires v in s.ledger && v !in s0.ledger
    ensures exists p: Pid :: v in plans(p)
    decreases |trace|
  {
    var n := |trace| - 1;
    var before :| Reachable(plans, s0, before, trace[..n]) && Enabled(before, trace[n].pid, trace[n].action)
                  && s == Apply(plans, before, trace[n].pid, trace[n].action);
    if v in before.ledger {
      RecordedIsPlanned(plans, s0, before, trace[..n], v);
    } else {
      RunKeepsInv(plans, s0, before, trace[..n]);
      OnlyCommitsTakeEffect(plans, before, trace[n].pid, trace[n].action);
      assert v in plans(trace[n].pid);
    }
  }

  /** Where nobody asks for the EE layer, whatever is applied is a core file; and EE files are files of the tree. */
  lemma OnlyCoreWithoutFlag(core: set<string>, ee: set<string>, withEe: Pid -> bool, s0: State, s: State,
                            trace: seq<Event>, v: string)
    requires forall f :: f in core ==> '/' !in f
    requires AtRest(s0) && s0.ledger == {} && Reachable(TreePlans(core, ee, withEe), s0, s, trace) && v in s.ledger
    ensures v in core || exists e :: e in ee && v == "ee/" + e
    ensures (forall p: Pid :: !withEe(p)) ==> v in core
  {
    var plans := TreePlans(core, ee, withEe);
    forall p: Pid ensures Distinct(plans(p)) {
      DiscoverDistinct(core, ee, withEe(p));
    }
    RecordedIsPlanned(plans, s0, s, trace, v);
    var p: Pid :| v in plans(p);
    assert plans(p) == Discover(core, ee, withEe(p));
    DiscoverExactly(core, ee, v);
  }

  // ----- progress -----

  predicate Breaks(a: Action) {
    a.Fail? || a.Crash?
  }

  /** Who is not waiting for the lock can always go on by itself. */
  lemma CanGoOn(plans: Pid -> seq<string>, s: State, p: Pid) returns (a: Action)
    requires Inv(plans, s) && Connected(PhaseOf(s, p)) && !PhaseOf(s, p).Waiting?
    ensures Enabled(s, p, a) && !Breaks(a)
  {
    var ph := PhaseOf(s, p);
    assert RunnerFits(plans(p), s, p);
    a := match ph
      case Locked => EnsureLedger
      case Ensured => Plan
      case Running(pending, next) => if next == |pending| then Finish else Begin
      case InTransaction(_, _, executed) => if executed then Commit else Execute;
  }

  /** As long as anybody is connected, somebody can go on without a failure: runners never block each other for good. */
  lemma NeverStuck(plans: Pid -> seq<string>, s0: State, s: State, trace: seq<Event>, p: Pid)
    requires AtRest(s0) && Reachable(plans, s0, s, trace) && (forall p: Pid :: Distinct(plans(p)))
    requires Connected(PhaseOf(s, p))
    ensures exists q: Pid, a :: Enabled(s, q, a) && !Breaks(a)
  {
    RunKeepsInv(plans, s0, s, trace);
    if PhaseOf(s, p).Waiting? {
      if s.holder == None {
        assert Enabled(s, p, Acquire) && !Breaks(Acquire);
      } else {
        var a := CanGoOn(plans, s, s.holder.value);
      }
    } else {
      var a := CanGoOn(plans, s, p);
    }
  }

  lemma Extend(plans: Pid -> seq<string>, s0: State, s: State, trace: seq<Event>, p: Pid, a: Action)
    requires Reachable(plans, s0, s, trace) && Enabled(s, p, a)
    ensures Reachable(plans, s0, Apply(plans, s, p, a), trace + [Event(p, a)])
  {
    var longer := trace + [Event(p, a)];
    assert longer[..|trace|] == trace;
  }

  /** One pending migration, from its BEGIN to its COMMIT. */
  lemma CommitsOne(plans: Pid -> seq<string>, s: State, p: Pid) returns (one: State, two: State, t: State)
    requires PhaseOf(s, p).Running? && PhaseOf(s, p).next < |PhaseOf(s, p).pending| && s.hasTable
    ensures Enabled(s, p, Begin) && one == Apply(plans, s, p, Begin)
    ensures Enabled(one, p, Execute) && two == Apply(plans, one, p, Execute)
    ensures Enabled(two, p, Commit) && t == Apply(plans, two, p, Commit)
    ensures var ph := PhaseOf(s, p);
            PhaseOf(t, p) == Running(ph.pending, ph.next + 1) && t.effects == s.effects + [ph.pending[ph.next]]
  {
    one := Apply(plans, s, p, Begin);
    two := Apply(plans, one, p, Execute);
    t := Apply(plans, two, p, Commit);
  }

  lemma HasTable(plans: Pid -> seq<string>, s0: State, s: State, trace: seq<Event>, p: Pid)
    requires AtRest(s0) && Reachable(plans, s0, s, trace) && (forall q: Pid :: Distinct(plans(q)))
    ensures PhaseOf(s, p).Running? ==> s.hasTable
  {
    RunKeepsInv(plans, s0, s, trace);
    assert RunnerFits(plans(p), s, p);
  }

  lemma AppliesOne(plans: Pid -> seq<string>, s0: State, s: State, trace: seq<Event>, p: Pid)
    returns (t: State, longer: seq<Event>)
    requires AtRest(s0) && Reachable(plans, s0, s, trace) && (forall q: Pid :: Distinct(plans(q)))
    requires PhaseOf(s, p).Running? && PhaseOf(s, p).next < |PhaseOf(s, p).pending|
    ensures Reachable(plans, s0, t, longer)
    ensures var ph := PhaseOf(s, p);
            PhaseOf(t, p) == Running(ph.pending, ph.next + 1) && t.effects == s.effects + [ph.pending[ph.next]]
  {
    HasTable(plans, s0, s, trace, p);
    var one, two;
    one, two, t := CommitsOne(plans, s, p);
    Extend(plans, s0, s, trace, p, Begin);
    Extend(plans, s0, one, trace + [Event(p, Begin)], p, Execute);
    Extend(plans, s0, two, trace + [Event(p, Begin)] + [Event(p, Execute)], p, Commit);
    longer := trace + [Event(p, Begin)] + [Event(p, Execute)] + [Event(p, Commit)];
  }

  lemma Rest(effects: seq<string>, pending: seq<string>, next: nat)
    requires next < |pending|
    ensures effects + pending[next..] == effects + [pending[next]] + pending[next + 1..]
  {
  }

  /** From the plan to the end: what is pending is applied in order, and the runner finishes. */
  lemma {:induction false} RunsThrough(plans: Pid -> seq<string>, s0: State, s: State, trace: seq<Event>, p: Pid)
    returns (t: State, longer: seq<Event>)
    requires AtRest(s0) && Reachable(plans, s0, s, trace) && (forall q: Pid :: Distinct(plans(q)))
    requires PhaseOf(s, p).Running? && PhaseOf(s, p).next <= |PhaseOf(s, p).pending|
    ensures Reachable(plans, s0, t, longer) && PhaseOf(t, p) == Closed(Finished)
    ensures t.effects == s.effects + PhaseOf(s, p).pending[PhaseOf(s, p).next..]
    decreases |PhaseOf(s, p).pending| - PhaseOf(s, p).next
  {
    var pending, next := PhaseOf(s, p).pending, PhaseOf(s, p).next;
    if next == |pending| {
      Extend(plans, s0, s, trace, p, Finish);
      t, longer := Apply(plans, s, p, Finish), trace + [Event(p, Finish)];
      assert s.effects + pending[next..] == s.effects;
    } else {
      var after, done := AppliesOne(plans, s0, s, trace, p);
      t, longer := RunsThrough(plans, s0, after, done, p);
      Rest(s.effects, pending, next);
    }
  }

  /** A runner left alone connects, takes the lock, applies what the ledger lacks of its plan in order, and finishes. */
  lemma AloneFinishes(plans: Pid -> seq<string>, s0: State, p: Pid) returns (t: State, trace: seq<Event>)
    requires AtRest(s0) && forall q: Pid :: Distinct(plans(q))
    ensures Reachable(plans, s0, t, trace) && PhaseOf(t, p) == Closed(Finished)
    ensures s0.effects <= t.effects
    ensures forall v :: v in t.effects[|s0.effects|..] <==> v in plans(p) && v !in s0.ledger
    ensures OrderedIn(plans(p), t.effects[|s0.effects|..])
  {
    var connected := Apply(plans, s0, p, Connect);
    Extend(plans, s0, s0, [], p, Connect);
    var locked := Apply(plans, connected, p, Acquire);
    Extend(plans, s0, connected, [] + [Event(p, Connect)], p, Acquire);
    var ensured := Apply(plans, locked, p, EnsureLedger);
    Extend(plans, s0, locked, [] + [Event(p, Connect)] + [Event(p, Acquire)], p, EnsureLedger);
    var running := Apply(plans, ensured, p, Plan);
    var start := [] + [Event(p, Connect)] + [Event(p, Acquire)] + [Event(p, EnsureLedger)];
    Extend(plans, s0, ensured, start, p, Plan);
    t, trace := RunsThrough(plans, s0, running, start + [Event(p, Plan)], p);
    var pending := Pending(plans(p), s0.ledger);
    PendingMembers(plans(p), s0.ledger);
    PendingOrdered(plans(p), s0.ledger);
    assert pending[0..] == pending;
    assert t.effects[|s0.effects|..] == pending;
  }
}
