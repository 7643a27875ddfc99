/** The embed token source of embed/getToken.reference.js: a cached token and one mint request at a time. */
module TokenCache {
  import opened Text
  import opened Wrappers

  /** How a mint request comes back. A plain text is given as trimmed. */
  datatype Response =
    | NetworkError
    | HttpError(status: int)
    | JsonText(text: string)
    | JsonObject(token: Option<string>, accessToken: Option<string>)
    | OtherJson
    | BadJson
    | PlainText(text: string)

  datatype Outcome = Fulfilled(token: string) | Rejected

  /** The string the response is taken to carry, if any. */
  function TokenIn(r: Response): Option<string> {
    match r
    case JsonText(t) => Some(t)
    case JsonObject(Some(t), _) => Some(t)
    case JsonObject(None, Some(t)) => Some(t)
    case PlainText(t) => Some(t)
    case _ => None
  }

  /** A token counts when it is not empty and has three parts. */
  predicate LooksLikeJwt(t: string) {
    t != "" && Count(t, '.') == 2
  }

  function OutcomeOf(r: Response): Outcome {
    match TokenIn(r)
    case Some(t) => if LooksLikeJwt(t) then Fulfilled(t) else Rejected
    case None => Rejected
  }

  /** The clock-free parameters: how `exp` is read off a token, and the refresh lead in seconds. */
  datatype Config = Config(decodeExp: string -> Option<int>, lead: int)

  /** A mint request: its result once it has one, and whether its `finally` has run. */
  datatype Mint = Mint(result: Option<Outcome>, cleared: bool)

  /** A call of `getToken`: answered from the cache, waiting for a mint, or settled with its outcome. */
  datatype Caller =
    | Served(token: string, exp: int, at: int)
    | Waiting(mint: nat)
    | Settled(mint: nat, outcome: Outcome)

  /** The three closure variables, the clock, and every mint and call so far. */
  datatype State = State(
    cachedToken: Option<string>,
    cachedExp: Option<int>,
    inflight: Option<nat>,
    now: int,
    mints: seq<Mint>,
    callers: seq<Caller>
  )

  function Init(now: int): State {
    State(None, None, None, now, [], [])
  }

  predicate Fresh(cfg: Config, s: State) {
    s.cachedToken.Some? && s.cachedToken.value != "" && s.cachedExp.Some? && s.cachedExp.value - s.now > cfg.lead
  }

  /** What may happen next: the clock moves, somebody calls, a response arrives, a `finally` runs, a promise settles. */
  datatype Action =
    | Clock(now: int)
    | Call
    | Arrive(mint: nat, response: Response)
    | Finally(mint: nat)
    | Settle(caller: nat)

  predicate Enabled(s: State, a: Action) {
    match a
    case Clock(_) => true
    case Call => true
    case Arrive(m, _) => m < |s.mints| && s.mints[m].result == None
    case Finally(m) => m < |s.mints| && s.mints[m].result.Some? && !s.mints[m].cleared
    case Settle(c) =>
      && c < |s.callers| && s.callers[c].Waiting? && s.callers[c].mint < |s.mints|
      && s.mints[s.callers[c].mint].cleared && s.mints[s.callers[c].mint].result.Some?
  }

  function Apply(cfg: Config, s: State, a: Action): State
    requires Enabled(s, a)
  {
    match a
    case Clock(now) => s.(now := now)
    case Call =>
      if Fresh(cfg, s) then s.(callers := s.callers + [Served(s.cachedToken.value, s.cachedExp.value, s.now)])
      else if s.inflight.Some? then s.(callers := s.callers + [Waiting(s.inflight.value)])
      else
        s.(inflight := Some(|s.mints|), mints := s.mints + [Mint(None, false)],
           callers := s.callers + [Waiting(|s.mints|)])
    case Arrive(m, r) =>
      var done := s.(mints := s.mints[m := s.mints[m].(result := Some(OutcomeOf(r)))]);
      if OutcomeOf(r).Fulfilled? then
        done.(cachedToken := Some(OutcomeOf(r).token), cachedExp := cfg.decodeExp(OutcomeOf(r).token))
      else done
    case Finally(m) => s.(inflight := None, mints := s.mints[m := s.mints[m].(cleared := true)])
    case Settle(c) =>
      var m := s.callers[c].mint;
      s.(callers := s.callers[c := Settled(m, s.mints[m].result.value)])
  }

  /** The token source itself: the closure variables are fields, each turn of the event loop is a method. */
  class TokenSource {
    const cfg: Config
    var cachedToken: Option<string>
    var cachedExp: Option<int>
    var inflight: Option<nat>
    var now: int
    var mints: seq<Mint>
    var callers: seq<Caller>

    function View(): State
      reads this
    {
      State(cachedToken, cachedExp, inflight, now, mints, callers)
    }

    constructor (cfg: Config, now: int)
      ensures this.cfg == cfg && View() == Init(now)
    {
      this.cfg, this.now := cfg, now;
      cachedToken, cachedExp, inflight, mints, callers := None, None, None, [], [];
    }

    /** `isCachedTokenFresh` */
    method IsCachedTokenFresh() returns (isFresh: bool)
      ensures isFresh == Fresh(cfg, View())
    {
      if cachedToken == None || cachedToken.value == "" || cachedExp == None {
        return false;
      }
      isFresh := cachedExp.value - now > cfg.lead;
    }

    /** `getToken`, up to the promise it returns. */
    method GetToken()
      modifies this
      ensures View() == Apply(cfg, old(View()), Call)
    {
      var isFresh := IsCachedTokenFresh();
      if isFresh {
        callers := callers + [Served(cachedToken.value, cachedExp.value, now)];
        return;
      }
      if inflight == None {
        inflight := Some(|mints|);
        mints := mints + [Mint(None, false)];
      }
      callers := callers + [Waiting(inflight.value)];
    }

    /** The end of `mintFresh`, once the response is there. */
    method FinishMint(m: nat, response: Response)
      requires Enabled(View(), Arrive(m, response))
      modifies this
      ensures View() == Apply(cfg, old(View()), Arrive(m, response))
    {
      var token := TokenIn(response);
      if token == None || !LooksLikeJwt(token.value) {
        mints := mints[m := mints[m].(result := Some(Rejected))];
      } else {
        cachedToken, cachedExp := token, cfg.decodeExp(token.value);
        mints := mints[m := mints[m].(result := Some(Fulfilled(token.value)))];
      }
    }

    /** The `finally` callback. */
    method ClearInflight(m: nat)
      requires Enabled(View(), Finally(m))
      modifies this
      ensures View() == Apply(cfg, old(View()), Finally(m))
    {
      inflight := None;
      mints := mints[m := mints[m].(cleared := true)];
    }
  }

  // ----- what every run keeps -----

  /** The token of the last mint that was fulfilled. */
  function LastFulfilled(mints: seq<Mint>): Option<string> {
    if mints == [] then None
    else
      var last := mints[|mints| - 1];
      if last.result.Some? && last.result.value.Fulfilled? then Some(last.result.value.token)
      else LastFulfilled(mints[..|mints| - 1])
  }

  predicate IsResult(mints: seq<Mint>, t: string) {
    exists m :: 0 <= m < |mints| && mints[m].result == Some(Fulfilled(t))
  }

  predicate CallerOk(cfg: Config, s: State, c: Caller) {
    match c
    case Served(t, exp, at) => exp - at > cfg.lead && IsResult(s.mints, t) && cfg.decodeExp(t) == Some(exp)
    case Waiting(m) => m < |s.mints|
    case Settled(m, o) => m < |s.mints| && s.mints[m].result == Some(o)
  }

  /** Only the newest mint may be unfinished, and `_inflight` is set exactly while it is. */
  ghost predicate OneInFlight(s: State) {
    && (forall m :: 0 <= m < |s.mints| ==> (s.mints[m].cleared ==> s.mints[m].result.Some?))
    && (forall m :: 0 <= m < |s.mints| - 1 ==> s.mints[m].cleared)
    && (s.inflight == if |s.mints| > 0 && !s.mints[|s.mints| - 1].cleared then Some(|s.mints| - 1) else None)
  }

  ghost predicate Inv(cfg: Config, s: State) {
    && OneInFlight(s)
    && s.cachedToken == LastFulfilled(s.mints)
    && s.cachedExp == (if s.cachedToken.Some? then cfg.decodeExp(s.cachedToken.value) else None)
    && |s.mints| <= |s.callers|
    && forall c :: 0 <= c < |s.callers| ==> CallerOk(cfg, s, s.callers[c])
  }

  lemma {:induction false} LastIsResult(mints: seq<Mint>)
    requires LastFulfilled(mints).Some?
    ensures IsResult(mints, LastFulfilled(mints).value)
  {
    var n := |mints| - 1;
    if mints[n].result.Some? && mints[n].result.value.Fulfilled? {
      assert mints[n].result == Some(Fulfilled(LastFulfilled(mints).value));
    } else {
      LastIsResult(mints[..n]);
      var m :| 0 <= m < n && mints[..n][m].result == Some(Fulfilled(LastFulfilled(mints).value));
      assert mints[m] == mints[..n][m];
    }
  }

  /** Results, once there, stay; so what is true of a caller stays true. */
  lemma CallerStays(cfg: Config, s: State, t: State, c: Caller)
    requires CallerOk(cfg, s, c) && |s.mints| <= |t.mints|
    requires forall m :: 0 <= m < |s.mints| ==> (s.mints[m].result.Some? ==> t.mints[m].result == s.mints[m].result)
    ensures CallerOk(cfg, t, c)
  {
    if c.Served? {
      var m :| 0 <= m < |s.mints| && s.mints[m].result == Some(Fulfilled(c.token));
      assert t.mints[m].result == Some(Fulfilled(c.token));
    }
  }

  lemma AppendedCaller(cfg: Config, s: State, t: State, c: Caller)
    requires Inv(cfg, s) && t.callers == s.callers + [c] && CallerOk(cfg, t, c) && |s.mints| <= |t.mints|
    requires forall m :: 0 <= m < |s.mints| ==> t.mints[m] == s.mints[m]
    ensures forall k :: 0 <= k < |t.callers| ==> CallerOk(cfg, t, t.callers[k])
  {
    forall k | 0 <= k < |s.callers| ensures CallerOk(cfg, t, s.callers[k]) {
      CallerStays(cfg, s, t, s.callers[k]);
    }
  }

  lemma CallKeeps(cfg: Config, s: State)
    requires Inv(cfg, s)
    ensures Inv(cfg, Apply(cfg, s, Call))
  {
    var t := Apply(cfg, s, Call);
    if Fresh(cfg, s) {
      LastIsResult(s.mints);
    } else if s.inflight == None {
      assert t.mints[..|s.mints|] == s.mints;
    }
    AppendedCaller(cfg, s, t, t.callers[|s.callers|]);
  }

  lemma ArriveKeeps(cfg: Config, s: State, m: nat, r: Response)
    requires Inv(cfg, s) && Enabled(s, Arrive(m, r))
    ensures Inv(cfg, Apply(cfg, s, Arrive(m, r)))
  {
    var t := Apply(cfg, s, Arrive(m, r));
    assert m == |s.mints| - 1;
    assert t.mints[..m] == s.mints[..m];
    forall c | 0 <= c < |s.callers| ensures CallerOk(cfg, t, s.callers[c]) {
      CallerStays(cfg, s, t, s.callers[c]);
    }
  }

  lemma FinallyKeeps(cfg: Config, s: State, m: nat)
    requires Inv(cfg, s) && Enabled(s, Finally(m))
    ensures Inv(cfg, Apply(cfg, s, Finally(m)))
  {
    var t := Apply(cfg, s, Finally(m));
    assert m == |s.mints| - 1;
    assert t.mints[..m] == s.mints[..m];
    forall c | 0 <= c < |s.callers| ensures CallerOk(cfg, t, s.callers[c]) {
      CallerStays(cfg, s, t, s.callers[c]);
    }
  }

  lemma StepKeepsInv(cfg: Config, s: State, a: Action)
    requires Inv(cfg, s) && Enabled(s, a)
    ensures Inv(cfg, Apply(cfg, s, a))
  {
    match a
    case Call => CallKeeps(cfg, s);
    case Arrive(m, r) => ArriveKeeps(cfg, s, m, r);
    case Finally(m) => FinallyKeeps(cfg, s, m);
    case Clock(_) =>
      forall c | 0 <= c < |s.callers| ensures CallerOk(cfg, Apply(cfg, s, a), s.callers[c]) {
        CallerStays(cfg, s, Apply(cfg, s, a), s.callers[c]);
      }
    case Settle(k) =>
      forall c | 0 <= c < |s.callers| ensures CallerOk(cfg, Apply(cfg, s, a), s.callers[c]) {
        CallerStays(cfg, s, Apply(cfg, s, a), s.callers[c]);
      }
  }

  /** The state after a run, if every action of it could happen. */
  function Run(cfg: Config, s: State, actions: seq<Action>): Option<State>
    decreases |actions|
  {
    if actions == [] then Some(s)
    else if Enabled(s, actions[0]) then Run(cfg, Apply(cfg, s, actions[0]), actions[1..])
    else None
  }

  lemma {:induction false} RunKeepsInv(cfg: Config, s: State, actions: seq<Action>)
    requires Inv(cfg, s) && Run(cfg, s, actions).Some?
    ensures Inv(cfg, Run(cfg, s, actions).value)
    decreases |actions|
  {
    if actions != [] {
      StepKeepsInv(cfg, s, actions[0]);
      RunKeepsInv(cfg, Apply(cfg, s, actions[0]), actions[1..]);
    }
  }

  /**
   * In every run: at most one mint is outstanding, and only the newest; the cached token and expiry come
   * from the newest fulfilled mint; a token served from the cache had more than the lead time left; a
   * settled call has the outcome of the mint it waited for.
   */
  lemma RunsAreSafe(cfg: Config, now: int, actions: seq<Action>)
    requires Run(cfg, Init(now), actions).Some?
    ensures var s := Run(cfg, Init(now), actions).value;
            && (forall i :: 0 <= i < |s.mints| - 1 ==> s.mints[i].result.Some?)
            && s.cachedToken == LastFulfilled(s.mints)
            && s.cachedExp == (if s.cachedToken.Some? then cfg.decodeExp(s.cachedToken.value) else None)
            && |s.mints| <= |s.callers|
            && forall c :: 0 <= c < |s.callers| ==> CallerOk(cfg, s, s.callers[c])
  {
    RunKeepsInv(cfg, Init(now), actions);
  }

  /** No waiting call is stuck: its mint can still answer, be cleared, or hand over its outcome. */
  lemma NobodyIsStuck(cfg: Config, now: int, actions: seq<Action>, c: nat)
    requires Run(cfg, Init(now), actions).Some?
    requires var s := Run(cfg, Init(now), actions).value; c < |s.callers| && s.callers[c].Waiting?
    ensures var s := Run(cfg, Init(now), actions).value;
            var m := s.callers[c].mint;
            (forall r :: Enabled(s, Arrive(m, r))) || Enabled(s, Finally(m)) || Enabled(s, Settle(c))
  {
    RunKeepsInv(cfg, Init(now), actions);
    assert CallerOk(cfg, Run(cfg, Init(now), actions).value, Run(cfg, Init(now), actions).value.callers[c]);
  }

  // ----- when a mint is made -----

  /**
   * By the history alone: every mint so far is over, and the newest fulfilled token is none, unusable or
   * about to expire.
   */
  predicate Needed(cfg: Config, s: State) {
    && (forall m :: 0 <= m < |s.mints| ==> s.mints[m].cleared)
    && match LastFulfilled(s.mints)
       case None => true
       case Some(t) => t == "" || cfg.decodeExp(t) == None || cfg.decodeExp(t).value - s.now <= cfg.lead
  }

  /** How many calls of a run came when a mint was needed. */
  function NeededCalls(cfg: Config, s: State, actions: seq<Action>): nat
    requires Run(cfg, s, actions).Some?
    decreases |actions|
  {
    if actions == [] then 0
    else
      (if actions[0].Call? && Needed(cfg, s) then 1 else 0)
      + NeededCalls(cfg, Apply(cfg, s, actions[0]), actions[1..])
  }

  /** The cache and `_inflight` say what the history says. */
  lemma NeededIsStale(cfg: Config, s: State)
    requires Inv(cfg, s)
    ensures Needed(cfg, s) <==> !Fresh(cfg, s) && s.inflight == None
  {
    if s.inflight == None && |s.mints| > 0 {
      assert s.mints[|s.mints| - 1].cleared;
    }
  }

  lemma {:induction false} MintsFrom(cfg: Config, s: State, actions: seq<Action>)
    requires Inv(cfg, s) && Run(cfg, s, actions).Some?
    ensures |Run(cfg, s, actions).value.mints| == |s.mints| + NeededCalls(cfg, s, actions)
    decreases |actions|
  {
    if actions != [] {
      NeededIsStale(cfg, s);
      StepKeepsInv(cfg, s, actions[0]);
      MintsFrom(cfg, Apply(cfg, s, actions[0]), actions[1..]);
    }
  }

  /**
   * Over every run there are exactly as many mints as calls that came when one was needed, and each mint
   * has a call that waits or waited for it.
   */
  lemma MintsAreNeeded(cfg: Config, now: int, actions: seq<Action>)
    requires Run(cfg, Init(now), actions).Some?
    ensures var s := Run(cfg, Init(now), actions).value;
            && |s.mints| == NeededCalls(cfg, Init(now), actions)
            && forall m :: 0 <= m < |s.mints| ==> Awaited(s, m)
  {
    MintsFrom(cfg, Init(now), actions);
    AllAwaited(cfg, Init(now), actions);
  }

  predicate WaitsFor(c: Caller, m: nat) {
    (c.Waiting? || c.Settled?) && c.mint == m
  }

  predicate Awaited(s: State, m: nat) {
    exists c :: 0 <= c < |s.callers| && WaitsFor(s.callers[c], m)
  }

  lemma AwaitedStays(cfg: Config, s: State, a: Action, m: nat)
    requires Inv(cfg, s) && Enabled(s, a) && m < |Apply(cfg, s, a).mints| && (m < |s.mints| ==> Awaited(s, m))
    ensures Awaited(Apply(cfg, s, a), m)
  {
    var t := Apply(cfg, s, a);
    if m < |s.mints| {
      var c :| 0 <= c < |s.callers| && WaitsFor(s.callers[c], m);
      assert WaitsFor(t.callers[c], m);
    } else {
      assert WaitsFor(t.callers[|s.callers|], m);
    }
  }

  lemma {:induction false} AllAwaited(cfg: Config, s: State, actions: seq<Action>)
    requires Inv(cfg, s) && Run(cfg, s, actions).Some? && forall m :: 0 <= m < |s.mints| ==> Awaited(s, m)
    ensures var t := Run(cfg, s, actions).value; forall m :: 0 <= m < |t.mints| ==> Awaited(t, m)
    decreases |actions|
  {
    if actions != [] {
      var next := Apply(cfg, s, actions[0]);
      StepKeepsInv(cfg, s, actions[0]);
      forall m | 0 <= m < |next.mints| ensures Awaited(next, m) {
        AwaitedStays(cfg, s, actions[0], m);
      }
      AllAwaited(cfg, next, actions[1..]);
    }
  }

  /** A call waiting for a mint in flight can only settle with that mint's outcome, whatever happens in between. */
  lemma {:induction false} JoinersShare(cfg: Config, s: State, actions: seq<Action>, c: nat, m: nat)
    requires Inv(cfg, s) && Run(cfg, s, actions).Some? && c < |s.callers| && m < |s.mints|
    requires s.callers[c] == Waiting(m)
             || (s.mints[m].result.Some? && s.callers[c] == Settled(m, s.mints[m].result.value))
    ensures var t := Run(cfg, s, actions).value;
            && c < |t.callers| && m < |t.mints|
            && (t.callers[c] == Waiting(m)
                || (t.mints[m].result.Some? && t.callers[c] == Settled(m, t.mints[m].result.value)))
    decreases |actions|
  {
    if actions != [] {
      StepKeepsInv(cfg, s, actions[0]);
      JoinersShare(cfg, Apply(cfg, s, actions[0]), actions[1..], c, m);
    }
  }

  /** A failed mint leaves the cache alone and, once cleared, the next call free to mint again. */
  lemma FailureFreesTheNextCall(cfg: Config, s: State, m: nat, r: Response)
    requires Inv(cfg, s) && Enabled(s, Arrive(m, r)) && OutcomeOf(r) == Rejected
    ensures var t := Run(cfg, s, [Arrive(m, r), Finally(m)]);
            && t.Some? && t.value.cachedToken == s.cachedToken && t.value.cachedExp == s.cachedExp
            && t.value.inflight == None
            && |Apply(cfg, t.value, Call).mints| == |s.mints| + (if Fresh(cfg, s) then 0 else 1)
  {
    var one := Apply(cfg, s, Arrive(m, r));
    assert Run(cfg, one, [Finally(m)]) == Run(cfg, Apply(cfg, one, Finally(m)), []);
    assert [Arrive(m, r), Finally(m)][1..] == [Finally(m)];
  }

  /** While the cached token stays fresh, calls mint nothing: at most the request already under way goes on. */
  lemma {:induction false} FreshCacheMintsNothing(cfg: Config, s: State, actions: seq<Action>, latest: int)
    requires Inv(cfg, s) && Run(cfg, s, actions).Some? && s.inflight == None && Fresh(cfg, s)
    requires s.now <= latest && s.cachedExp.value - latest > cfg.lead
    requires forall i :: 0 <= i < |actions| && actions[i].Clock? ==> actions[i].now <= latest
    ensures Run(cfg, s, actions).value.mints == s.mints
    decreases |actions|
  {
    if actions != [] {
      var a := actions[0];
      var t := Apply(cfg, s, a);
      StepKeepsInv(cfg, s, a);
      assert !a.Arrive? && !a.Finally?;
      FreshCacheMintsNothing(cfg, t, actions[1..], latest);
    }
  }

  /** Every token served from the cache passed the shape check, and the expiry it was served by is its own. */
  lemma ServedTokensAreJwts(cfg: Config, now: int, actions: seq<Action>, c: nat)
    requires Run(cfg, Init(now), actions).Some?
    requires var s := Run(cfg, Init(now), actions).value; c < |s.callers| && s.callers[c].Served?
    ensures var s := Run(cfg, Init(now), actions).value;
            LooksLikeJwt(s.callers[c].token) && cfg.decodeExp(s.callers[c].token) == Some(s.callers[c].exp)
  {
    RunKeepsInv(cfg, Init(now), actions);
    var s := Run(cfg, Init(now), actions).value;
    assert CallerOk(cfg, s, s.callers[c]);
    ResultsAreJwts(cfg, Init(now), actions, s.callers[c].token);
  }

  lemma {:induction false} ResultsAreJwts(cfg: Config, s: State, actions: seq<Action>, t: string)
    requires Run(cfg, s, actions).Some? && IsResult(Run(cfg, s, actions).value.mints, t)
    requires IsResult(s.mints, t) ==> LooksLikeJwt(t)
    ensures LooksLikeJwt(t)
    decreases |actions|
  {
    if actions != [] {
      var next := Apply(cfg, s, actions[0]);
      if IsResult(next.mints, t) && !IsResult(s.mints, t) {
        NewResultIsJwt(cfg, s, actions[0], t);
      }
      ResultsAreJwts(cfg, next, actions[1..], t);
    }
  }

  lemma NewResultIsJwt(cfg: Config, s: State, a: Action, t: string)
    requires Enabled(s, a) && IsResult(Apply(cfg, s, a).mints, t) && !IsResult(s.mints, t)
    ensures LooksLikeJwt(t)
  {
    var next := Apply(cfg, s, a);
    var m :| 0 <= m < |next.mints| && next.mints[m].result == Some(Fulfilled(t));
    assert m < |s.mints| ==> s.mints[m].result != Some(Fulfilled(t));
  }
}
