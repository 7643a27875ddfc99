/** The migration runner of database/migrate.py: many runners, one lock, one ledger, failures and crashes anywhere. */
module Migrate {
  import opened Names
  import opened Wrappers

  // ----- discovery -----

  /** Versions under the EE prefix. */
  function Prefixed(names: seq<string>): (r: seq<string>)
    ensures |r| == |names| && forall i :: 0 <= i < |names| ==> r[i] == "ee/" + names[i]
  {
    seq(|names|, i requires 0 <= i < |names| => "ee/" + names[i])
  }

  /** The migration list of one source tree: core files in order, then the EE files under their prefix. */
  function Discover(core: set<string>, ee: set<string>, includeEe: bool): seq<string> {
    Sorted(core) + (if includeEe then Prefixed(Sorted(ee)) else [])
  }

  /** A core-only run plans the core files and nothing else; with the EE layer its files join under their prefix. */
  lemma DiscoverExactly(core: set<string>, ee: set<string>, v: string)
    ensures v in Discover(core, ee, false) <==> v in core
    ensures v in Discover(core, ee, true) <==> v in core || exists e :: e in ee && v == "ee/" + e
  {
    var c, b := Sorted(core), Sorted(ee);
    assert c + [] == c;
    var all := c + Prefixed(b);
    assert v in all <==> v in c || v in Prefixed(b);
    if v in Prefixed(b) {
      var i :| 0 <= i < |b| && Prefixed(b)[i] == v;
      assert b[i] in b;
    }
    if e :| e in ee && v == "ee/" + e {
      assert e in b;
      var i :| 0 <= i < |b| && b[i] == e;
      assert Prefixed(b)[i] == v;
    }
  }

  lemma EeName(v: string)
    ensures '/' in "ee/" + v && ("ee/" + v)[3..] == v
  {
    assert ("ee/" + v)[2] == '/';
  }

  lemma PrefixedDistinct(names: seq<string>)
    requires Distinct(names)
    ensures Distinct(Prefixed(names))
  {
    var r := Prefixed(names);
    forall i, j | 0 <= i < j < |r| ensures r[i] != r[j] {
      EeName(names[i]);
      EeName(names[j]);
    }
  }

  lemma DistinctJoin(a: seq<string>, b: seq<string>)
    requires Distinct(a) && Distinct(b)
    requires forall i, j :: 0 <= i < |a| && 0 <= j < |b| ==> a[i] != b[j]
    ensures Distinct(a + b)
  {
  }

  lemma CoreIsApart(core: set<string>, names: seq<string>)
    requires forall f :: f in core ==> '/' !in f
    ensures forall i, j :: 0 <= i < |Sorted(core)| && 0 <= j < |names| ==> Sorted(core)[i] != Prefixed(names)[j]
  {
    var a := Sorted(core);
    forall i, j | 0 <= i < |a| && 0 <= j < |names| ensures a[i] != Prefixed(names)[j] {
      EeName(names[j]);
      assert a[i] in a;
    }
  }

  /** Core versions are file names, which hold no slash, so no EE version collides with one. */
  lemma DiscoverDistinct(core: set<string>, ee: set<string>, includeEe: bool)
    requires forall f :: f in core ==> '/' !in f
    ensures Distinct(Discover(core, ee, includeEe))
    ensures Discover(core, ee, includeEe) <= Discover(core, ee, true)
  {
    var a, b := Sorted(core), Sorted(ee);
    IncreasingIsDistinct(a);
    IncreasingIsDistinct(b);
    PrefixedDistinct(b);
    CoreIsApart(core, b);
    DistinctJoin(a, Prefixed(b));
    assert a + [] == a;
  }

  // ----- runners and database -----

  type Pid = nat

  datatype Outcome = Finished | Failed | Crashed

  /** Where a runner is; `next` counts the pending migrations it has committed. */
  datatype Phase =
    | Start
    | Waiting
    | Locked
    | Ensured
    | Running(pending: seq<string>, next: nat)
    | InTransaction(pending: seq<string>, next: nat, executed: bool)
    | Closed(outcome: Outcome)

  /** The ledger table and, in commit order, the versions whose SQL has taken effect. */
  datatype State = State(
    runners: map<Pid, Phase>, holder: Option<Pid>, hasTable: bool, ledger: set<string>, effects: seq<string>)

  datatype Action = Connect | Acquire | EnsureLedger | Plan | Begin | Execute | Commit | Finish | Fail | Crash

  function PhaseOf(s: State, p: Pid): Phase {
    if p in s.runners then s.runners[p] else Start
  }

  /** `[v for v in migrations if v not in done]` */
  function Pending(plan: seq<string>, done: set<string>): seq<string> {
    if plan == [] then []
    else Pending(plan[..|plan| - 1], done) + (if plan[|plan| - 1] in done then [] else [plan[|plan| - 1]])
  }

  predicate Connected(p: Phase) {
    !p.Start? && !p.Closed?
  }

  predicate Enabled(s: State, p: Pid, a: Action) {
    var ph := PhaseOf(s, p);
    match a
    case Connect => ph.Start?
    case Acquire => ph.Waiting? && s.holder.None?
    case EnsureLedger => ph.Locked?
    case Plan => ph.Ensured? && s.hasTable
    case Begin => ph.Running? && ph.next < |ph.pending|
    case Execute => ph.InTransaction? && !ph.executed
    case Commit =>
      ph.InTransaction? && ph.executed && s.hasTable && ph.next < |ph.pending|
    case Finish => ph.Running? && ph.next == |ph.pending|
    case Fail => Connected(ph)
    case Crash => Connected(ph)
  }

  function Move(s: State, p: Pid, ph: Phase): State {
    s.(runners := s.runners[p := ph])
  }

  /** The connection is gone: an open transaction leaves nothing behind and the session lock is released. */
  function Close(s: State, p: Pid, o: Outcome): State {
    Move(s, p, Closed(o)).(holder := if s.holder == Some(p) then None else s.holder)
  }

  function Apply(plans: Pid -> seq<string>, s: State, p: Pid, a: Action): State
    requires Enabled(s, p, a)
  {
    var ph := PhaseOf(s, p);
    match a
    case Connect => Move(s, p, Waiting)
    case Acquire => Move(s, p, Locked).(holder := Some(p))
    case EnsureLedger => Move(s, p, Ensured).(hasTable := true)
    case Plan => Move(s, p, Running(Pending(plans(p), s.ledger), 0))
    case Begin => Move(s, p, InTransaction(ph.pending, ph.next, false))
    case Execute => Move(s, p, InTransaction(ph.pending, ph.next, true))
    case Commit =>
      var v := ph.pending[ph.next];
      Move(s, p, Running(ph.pending, ph.next + 1)).(ledger := s.ledger + {v}, effects := s.effects + [v])
    case Finish => Close(s, p, Finished)
    case Fail => Close(s, p, Failed)
    case Crash => Close(s, p, Crashed)
  }

  datatype Event = Event(pid: Pid, action: Action)

  /** Every interleaving of every runner from a database left by earlier runs. */
  ghost predicate Reachable(plans: Pid -> seq<string>, s0: State, s: State, trace: seq<Event>)
    decreases |trace|
  {
    if trace == [] then s == s0
    else
      var n := |trace| - 1;
      exists before :: Reachable(plans, s0, before, trace[..n]) && Enabled(before, trace[n].pid, trace[n].action)
                       && s == Apply(plans, before, trace[n].pid, trace[n].action)
  }

  /** A database between runs: nobody connected, and the ledger records what has taken effect. */
  ghost predicate AtRest(s: State) {
    && s.runners == map[] && s.holder.None?
    && Distinct(s.effects) && forall v :: v in s.ledger <==> v in s.effects
  }

  // ----- safety for any runners -----

  predicate Critical(ph: Phase) {
    ph.Locked? || ph.Ensured? || ph.Running? || ph.InTransaction?
  }

  predicate Working(ph: Phase) {
    ph.Running? || ph.InTransaction?
  }

  /** Position of `v` in `plan`, or its length. */
  function Index(plan: seq<string>, v: string): (i: nat)
    ensures i <= |plan| && (i < |plan| ==> plan[i] == v) && (i == |plan| ==> v !in plan)
  {
    if plan == [] then 0 else if plan[0] == v then 0 else 1 + Index(plan[1..], v)
  }

  /** What is left to do is exactly what the ledger lacks of the plan, in plan order. */
  ghost predicate OnTrack(plan: seq<string>, ledger: set<string>, pending: seq<string>, next: nat) {
    && next <= |pending|
    && (forall v :: v in plan ==> (v in ledger <==> v !in pending[next..]))
    && (forall k :: next <= k < |pending| ==> pending[k] in plan)
    && (forall j, k :: next <= j < k < |pending| ==> Index(plan, pending[j]) < Index(plan, pending[k]))
  }

  ghost predicate RunnerFits(plan: seq<string>, s: State, p: Pid) {
    var ph := PhaseOf(s, p);
    && (Critical(ph) ==> s.holder == Some(p))
    && (ph.Ensured? ==> s.hasTable)
    && (Working(ph) ==> s.hasTable && OnTrack(plan, s.ledger, ph.pending, ph.next))
    && (ph.InTransaction? ==> ph.next < |ph.pending|)
    && (ph == Closed(Finished) ==> forall v :: v in plan ==> v in s.ledger)
  }

  ghost predicate Inv(plans: Pid -> seq<string>, s: State) {
    && Distinct(s.effects)
    && (forall v :: v in s.ledger <==> v in s.effects)
    && (forall p: Pid :: RunnerFits(plans(p), s, p))
    && (s.holder.Some? ==> Critical(PhaseOf(s, s.holder.value)))
  }

  lemma {:induction false} PendingMembers(plan: seq<string>, done: set<string>)
    ensures forall v :: v in Pending(plan, done) <==> v in plan && v !in done
  {
    if plan != [] {
      PendingMembers(plan[..|plan| - 1], done);
      assert plan == plan[..|plan| - 1] + [plan[|plan| - 1]];
    }
  }

  lemma {:induction false} IndexPrefix(a: seq<string>, b: seq<string>, v: string)
    ensures v in a ==> Index(a + b, v) == Index(a, v)
    ensures v !in a ==> Index(a + b, v) == |a| + Index(b, v)
  {
    if a == [] {
      assert a + b == b;
    } else {
      assert (a + b)[1..] == a[1..] + b;
      IndexPrefix(a[1..], b, v);
    }
  }

  ghost predicate OrderedIn(plan: seq<string>, r: seq<string>) {
    forall j, k :: 0 <= j < k < |r| ==> Index(plan, r[j]) < Index(plan, r[k])
  }

  lemma OrderedGrows(a: seq<string>, v: string, q: seq<string>)
    requires v !in a && (forall x :: x in q ==> x in a) && OrderedIn(a, q)
    ensures OrderedIn(a + [v], q) && OrderedIn(a + [v], q + [v])
  {
    forall x | x in q ensures Index(a + [v], x) == Index(a, x) < |a| {
      IndexPrefix(a, [v], x);
    }
    IndexPrefix(a, [v], v);
    var r := q + [v];
    forall j, k | 0 <= j < k < |r| ensures Index(a + [v], r[j]) < Index(a + [v], r[k]) {
      assert r[j] == q[j] && q[j] in q;
      if k < |q| {
        assert r[k] == q[k] && q[k] in q;
      }
    }
    forall j, k | 0 <= j < k < |q| ensures Index(a + [v], q[j]) < Index(a + [v], q[k]) {
      assert q[j] in q && q[k] in q;
    }
  }

  lemma {:induction false} PendingOrdered(plan: seq<string>, done: set<string>)
    requires Distinct(plan)
    ensures OrderedIn(plan, Pending(plan, done))
  {
    if plan != [] {
      var a, v := plan[..|plan| - 1], plan[|plan| - 1];
      assert plan == a + [v];
      assert forall i :: 0 <= i < |a| ==> a[i] == plan[i] != v;
      PendingOrdered(a, done);
      PendingMembers(a, done);
      OrderedGrows(a, v, Pending(a, done));
      assert Pending(a, done) + [] == Pending(a, done);
    }
  }

  lemma PlanIsOnTrack(plan: seq<string>, ledger: set<string>)
    requires Distinct(plan)
    ensures OnTrack(plan, ledger, Pending(plan, ledger), 0)
  {
    var r := Pending(plan, ledger);
    PendingMembers(plan, ledger);
    PendingOrdered(plan, ledger);
    assert r[0..] == r;
  }

  lemma CommitStaysOnTrack(plan: seq<string>, ledger: set<string>, pending: seq<string>, next: nat)
    requires OnTrack(plan, ledger, pending, next) && next < |pending|
    ensures OnTrack(plan, ledger + {pending[next]}, pending, next + 1)
  {
    var v := pending[next];
    assert pending[next..] == [v] + pending[next + 1..];
    forall k | next < k < |pending| ensures pending[k] != v {
      assert Index(plan, pending[next]) < Index(plan, pending[k]);
    }
  }

  /** Nobody else is affected by a step of `p` that leaves ledger, holder and table alone. */
  lemma StepKeepsInv(plans: Pid -> seq<string>, s: State, p: Pid, a: Action)
    requires Inv(plans, s) && Enabled(s, p, a) && Distinct(plans(p))
    ensures Inv(plans, Apply(plans, s, p, a))
  {
    var t := Apply(plans, s, p, a);
    assert RunnerFits(plans(p), s, p);
    var ph := PhaseOf(s, p);
    if a.Plan? {
      PlanIsOnTrack(plans(p), s.ledger);
    } else if a.Commit? {
      CommitStaysOnTrack(plans(p), s.ledger, ph.pending, ph.next);
    }
    forall q: Pid ensures RunnerFits(plans(q), t, q) {
      assert RunnerFits(plans(q), s, q);
      if q != p {
        assert PhaseOf(t, q) == PhaseOf(s, q);
      } else if a.Finish? {
        assert ph.pending[ph.next..] == [];
      }
    }
  }

  lemma StartInv(plans: Pid -> seq<string>, s0: State)
    requires AtRest(s0)
    ensures Inv(plans, s0)
  {
  }

  /** The ledger, and with it what has taken effect, only grows. */
  lemma {:induction false} RunKeepsInv(plans: Pid -> seq<string>, s0: State, s: State, trace: seq<Event>)
    requires AtRest(s0) && Reachable(plans, s0, s, trace)
    requires forall p: Pid :: Distinct(plans(p))
    ensures Inv(plans, s)
    ensures s0.effects <= s.effects
    decreases |trace|
  {
    if trace == [] {
      StartInv(plans, s0);
    } else {
      var n := |trace| - 1;
      var before :| Reachable(plans, s0, before, trace[..n]) && Enabled(before, trace[n].pid, trace[n].action)
                    && s == Apply(plans, before, trace[n].pid, trace[n].action);
      RunKeepsInv(plans, s0, before, trace[..n]);
      StepKeepsInv(plans, before, trace[n].pid, trace[n].action);
    }
  }

  /**
   * In every run: no version takes effect twice, the ledger is exactly what has taken effect, only one
   * runner at a time is between lock and close, and a runner that finished left nothing pending.
   */
  lemma RunsAreSafe(plans: Pid -> seq<string>, s0: State, s: State, trace: seq<Event>)
    requires AtRest(s0) && Reachable(plans, s0, s, trace)
    requires forall p: Pid :: Distinct(plans(p))
    ensures Distinct(s.effects)
    ensures forall v :: v in s.ledger <==> v in s.effects
    ensures forall p: Pid, q: Pid :: Critical(PhaseOf(s, p)) && Critical(PhaseOf(s, q)) ==> p == q
    ensures forall p: Pid, v :: PhaseOf(s, p) == Closed(Finished) && v in plans(p) ==> v in s.ledger
  {
    RunKeepsInv(plans, s0, s, trace);
    forall p: Pid, q: Pid | Critical(PhaseOf(s, p)) && Critical(PhaseOf(s, q)) ensures p == q {
      assert RunnerFits(plans(p), s, p) && RunnerFits(plans(q), s, q);
    }
    forall p: Pid, v | PhaseOf(s, p) == Closed(Finished) && v in plans(p) ensures v in s.ledger {
      assert RunnerFits(plans(p), s, p);
    }
  }

  /** An interrupted or failed migration leaves no trace: only a commit changes ledger and effects. */
  lemma OnlyCommitsTakeEffect(plans: Pid -> seq<string>, s: State, p: Pid, a: Action)
    requires Inv(plans, s) && Enabled(s, p, a)
    ensures var t := Apply(plans, s, p, a);
            if a.Commit? then
              (exists v :: v in plans(p) && v !in s.ledger && t.ledger == s.ledger + {v}
                  && t.effects == s.effects + [v])
            else t.ledger == s.ledger && t.effects == s.effects
    ensures a.Crash? || a.Fail? || a.Finish? ==> Apply(plans, s, p, a).holder != Some(p)
  {
    if a.Commit? {
      assert RunnerFits(plans(p), s, p);
      var ph := PhaseOf(s, p);
      assert ph.pending[ph.next] in plans(p);
    }
  }

  // ----- runners of one source tree -----

  /** Nothing is recorded before everything in front of it is. */
  ghost predicate InOrder(full: seq<string>, ledger: set<string>) {
    forall i, j :: 0 <= i < j < |full| && full[j] in ledger ==> full[i] in ledger
  }

  lemma {:induction false} IndexOf(plan: seq<string>, i: nat)
    requires i < |plan| && Distinct(plan)
    ensures Index(plan, plan[i]) == i
  {
    if i > 0 {
      assert forall k :: 0 <= k < |plan[1..]| ==> plan[1..][k] == plan[k + 1];
      IndexOf(plan[1..], i - 1);
      assert plan[0] != plan[i];
    }
  }

  /** The next pending migration comes after everything in front of it in the plan. */
  lemma NextIsInOrder(plan: seq<string>, ledger: set<string>, pending: seq<string>, next: nat, i: nat)
    requires Distinct(plan) && OnTrack(plan, ledger, pending, next) && next < |pending|
    requires i < Index(plan, pending[next])
    ensures i < |plan| && plan[i] in ledger
  {
    IndexOf(plan, i);
    forall k | next <= k < |pending| ensures pending[k] != plan[i] {
      assert k > next ==> Index(plan, pending[next]) < Index(plan, pending[k]);
    }
    assert plan[i] in plan && plan[i] !in pending[next..];
  }

  lemma CommitKeepsOrder(full: seq<string>, plan: seq<string>, ledger: set<string>, pending: seq<string>, next: nat)
    requires Distinct(full) && plan <= full && InOrder(full, ledger)
    requires OnTrack(plan, ledger, pending, next) && next < |pending|
    ensures InOrder(full, ledger + {pending[next]})
  {
    var v := pending[next];
    assert forall i :: 0 <= i < |plan| ==> plan[i] == full[i];
    assert v in plan;
    forall i, j | 0 <= i < j < |full| && full[j] in ledger + {v} ensures full[i] in ledger + {v} {
      if full[j] == v {
        IndexOf(full, j);
        IndexPrefix(plan, full[|plan|..], v);
        assert full == plan + full[|plan|..];
        NextIsInOrder(plan, ledger, pending, next, i);
      }
    }
  }

  lemma StepKeepsOrder(plans: Pid -> seq<string>, full: seq<string>, s: State, p: Pid, a: Action)
    requires Distinct(full) && plans(p) <= full && Distinct(plans(p))
    requires Inv(plans, s) && Enabled(s, p, a) && InOrder(full, s.ledger)
    ensures InOrder(full, Apply(plans, s, p, a).ledger)
  {
    if a.Commit? {
      assert RunnerFits(plans(p), s, p);
      var ph := PhaseOf(s, p);
      CommitKeepsOrder(full, plans(p), s.ledger, ph.pending, ph.next);
    }
  }

  lemma {:induction false} RunsStayInOrder(
    plans: Pid -> seq<string>, full: seq<string>, s0: State, s: State, trace: seq<Event>)
    requires AtRest(s0) && Reachable(plans, s0, s, trace)
    requires Distinct(full) && forall p: Pid :: plans(p) <= full
    requires InOrder(full, s0.ledger)
    ensures InOrder(full, s.ledger)
    decreases |trace|
  {
    PrefixesAreDistinct(plans, full);
    if trace != [] {
      var n := |trace| - 1;
      var before :| Reachable(plans, s0, before, trace[..n]) && Enabled(before, trace[n].pid, trace[n].action)
                    && s == Apply(plans, before, trace[n].pid, trace[n].action);
      RunsStayInOrder(plans, full, s0, before, trace[..n]);
      RunKeepsInv(plans, s0, before, trace[..n]);
      StepKeepsOrder(plans, full, before, trace[n].pid, trace[n].action);
    }
  }

  lemma PrefixesAreDistinct(plans: Pid -> seq<string>, full: seq<string>)
    requires Distinct(full) && forall p: Pid :: plans(p) <= full
    ensures forall p: Pid :: Distinct(plans(p))
  {
    forall p: Pid ensures Distinct(plans(p)) {
      assert plans(p) <= full;
      assert forall i :: 0 <= i < |plans(p)| ==> plans(p)[i] == full[i];
    }
  }

  /** Every runner discovers the same tree; `withEe` says which of them include the EE layer. */
  function TreePlans(core: set<string>, ee: set<string>, withEe: Pid -> bool): Pid -> seq<string> {
    (p: Pid) => Discover(core, ee, withEe(p))
  }

  lemma FirstInOrder(a: seq<string>, c: seq<string>, ledger: set<string>)
    requires InOrder(a + c, ledger)
    ensures forall i, j :: 0 <= i < j < |a| && a[j] in ledger ==> a[i] in ledger
    ensures forall i, j :: 0 <= i < |a| && 0 <= j < |c| && c[j] in ledger ==> a[i] in ledger
    ensures forall i, j :: 0 <= i < j < |c| && c[j] in ledger ==> c[i] in ledger
  {
    var full := a + c;
    assert forall i :: 0 <= i < |a| ==> full[i] == a[i];
    assert forall j :: 0 <= j < |c| ==> full[|a| + j] == c[j];
  }

  lemma InOrderMeans(core: set<string>, ee: set<string>, ledger: set<string>)
    requires InOrder(Discover(core, ee, true), ledger)
    ensures forall i, j :: 0 <= i < j < |Sorted(core)| && Sorted(core)[j] in ledger ==> Sorted(core)[i] in ledger
    ensures forall e, f :: e in ee && "ee/" + e in ledger && f in core ==> f in ledger
    ensures forall e, f :: e in ee && f in ee && Less(e, f) && "ee/" + f in ledger ==> "ee/" + e in ledger
  {
    var a, b := Sorted(core), Sorted(ee);
    var c := Prefixed(b);
    FirstInOrder(a, c, ledger);
    forall e, f | e in ee && "ee/" + e in ledger && f in core ensures f in ledger {
      var i :| 0 <= i < |a| && a[i] == f;
      var j :| 0 <= j < |b| && b[j] == e;
      assert c[j] == "ee/" + e;
    }
    forall e, f | e in ee && f in ee && Less(e, f) && "ee/" + f in ledger ensures "ee/" + e in ledger {
      var i :| 0 <= i < |b| && b[i] == e;
      var j :| 0 <= j < |b| && b[j] == f;
      InFront(b, i, j);
      assert c[i] == "ee/" + e && c[j] == "ee/" + f;
    }
  }

  lemma InFront(r: seq<string>, i: nat, j: nat)
    requires Increasing(r) && i < |r| && j < |r| && Less(r[i], r[j])
    ensures i < j
  {
    LessIrreflexive(r[i]);
    if j < i {
      LessTransitive(r[i], r[j], r[i]);
    }
  }

  /**
   * Runners of one tree, some with the EE layer and some without, starting from an empty database:
   * whatever happens, the core versions applied are a prefix of the core order, an EE version is applied
   * only when all core versions are, and EE versions are applied in the order of their names.
   */
  lemma OneTreeStaysInOrder(core: set<string>, ee: set<string>, withEe: Pid -> bool, s0: State, s: State,
                            trace: seq<Event>)
    requires forall f :: f in core ==> '/' !in f
    requires AtRest(s0) && s0.ledger == {}
    requires Reachable(TreePlans(core, ee, withEe), s0, s, trace)
    ensures forall i, j :: 0 <= i < j < |Sorted(core)| && Sorted(core)[j] in s.ledger ==> Sorted(core)[i] in s.ledger
    ensures forall e, f :: e in ee && "ee/" + e in s.ledger && f in core ==> f in s.ledger
    ensures forall e, f :: e in ee && f in ee && Less(e, f) && "ee/" + f in s.ledger ==> "ee/" + e in s.ledger
  {
    var full := Discover(core, ee, true);
    var plans := TreePlans(core, ee, withEe);
    DiscoverDistinct(core, ee, true);
    forall p: Pid ensures plans(p) <= full {
      DiscoverDistinct(core, ee, withEe(p));
    }
    RunsStayInOrder(plans, full, s0, s, trace);
    InOrderMeans(core, ee, s.ledger);
  }
}
