/** Which responses give a token, and how long the token of embed/getToken.reference.js is served. */
module TokenLife {
  import opened Text
  import opened TokenCache
  import opened Wrappers

  // ----- what counts as a token -----

  /** Three parts with a dot between each two. */
  ghost predicate HasThreeParts(t: string) {
    exists a, b, c :: IsSplit(t, a, b, c)
  }

  predicate IsSplit(t: string, a: string, b: string, c: string) {
    '.' !in a && '.' !in b && '.' !in c && t == a + "." + b + "." + c
  }

  lemma {:induction false} NoneToCount(s: string, c: char)
    ensures Count(s, c) == 0 <==> c !in s
  {
    if s != "" {
      NoneToCount(s[1..], c);
      assert c in s <==> s[0] == c || c in s[1..];
    }
  }

  /** What stands in front of the first dot and what behind it. */
  lemma {:induction false} FirstDot(t: string) returns (a: string, rest: string)
    requires Count(t, '.') > 0
    ensures '.' !in a && t == a + "." + rest && Count(rest, '.') == Count(t, '.') - 1
  {
    if t[0] == '.' {
      a, rest := "", t[1..];
    } else {
      var b;
      b, rest := FirstDot(t[1..]);
      a := [t[0]] + b;
      assert t == [t[0]] + t[1..];
    }
  }

  lemma CountSplit(t: string, a: string, b: string, c: string)
    requires IsSplit(t, a, b, c)
    ensures Count(t, '.') == 2
  {
    NoneToCount(a, '.');
    NoneToCount(b, '.');
    NoneToCount(c, '.');
    CountConcat(a + "." + b + ".", c, '.');
    CountConcat(a + "." + b, ".", '.');
    CountConcat(a + ".", b, '.');
    CountConcat(a, ".", '.');
    OneDot();
  }

  lemma OneDot()
    ensures Count(".", '.') == 1
  {
    assert "."[1..] == "";
  }

  lemma JwtExactly(t: string)
    ensures LooksLikeJwt(t) <==> HasThreeParts(t)
  {
    if HasThreeParts(t) {
      var a, b, c :| IsSplit(t, a, b, c);
      CountSplit(t, a, b, c);
    }
    if LooksLikeJwt(t) {
      var a, rest := FirstDot(t);
      var b, c := FirstDot(rest);
      NoneToCount(c, '.');
      assert t == a + "." + b + "." + c;
      assert IsSplit(t, a, b, c);
    }
  }

  /** The text a response carries: as JSON, under one of two names, the first before the second, or as it is. */
  predicate Carries(r: Response, t: string) {
    || r == JsonText(t) || r == PlainText(t)
    || (r.JsonObject? && (r.token == Some(t) || (r.token == None && r.accessToken == Some(t))))
  }

  /** A mint is fulfilled exactly by a response that carries three parts, and then with that very text. */
  lemma FulfilledExactly(r: Response, t: string)
    ensures OutcomeOf(r) == Fulfilled(t) <==> Carries(r, t) && HasThreeParts(t)
  {
    JwtExactly(t);
  }

  // ----- how long it is served -----

  lemma RunOne(cfg: Config, s: State, a: Action, rest: seq<Action>)
    requires Enabled(s, a)
    ensures Run(cfg, s, [a] + rest) == Run(cfg, Apply(cfg, s, a), rest)
  {
    assert ([a] + rest)[1..] == rest;
  }

  /** The events from a response to a call at a later time. */
  function Through(m: nat, r: Response, later: int): seq<Action> {
    [Arrive(m, r)] + ([Finally(m)] + ([Clock(later)] + ([Call] + [])))
  }

  /**
   * A token that arrives is served to every later call without another mint for as long as it has more than the
   * lead time left; after that, and at once if no expiry can be read off it, the next call mints again.
   */
  lemma ServedUntilLead(cfg: Config, s: State, m: nat, r: Response, t: string, later: int)
    requires Inv(cfg, s) && Enabled(s, Arrive(m, r)) && Carries(r, t) && HasThreeParts(t)
    ensures var end, exp := Run(cfg, s, Through(m, r, later)), cfg.decodeExp(t);
            && end.Some? && |end.value.callers| == |s.callers| + 1
            && var asked := end.value.callers[|s.callers|];
               if exp.Some? && exp.value - later > cfg.lead then
                 asked == Served(t, exp.value, later) && |end.value.mints| == |s.mints|
               else asked == Waiting(|s.mints|) && |end.value.mints| == |s.mints| + 1
  {
    FulfilledExactly(r, t);
    var one := Apply(cfg, s, Arrive(m, r));
    StepKeepsInv(cfg, s, Arrive(m, r));
    var two := Apply(cfg, one, Finally(m));
    var three := Apply(cfg, two, Clock(later));
    RunOne(cfg, s, Arrive(m, r), [Finally(m)] + ([Clock(later)] + ([Call] + [])));
    RunOne(cfg, one, Finally(m), [Clock(later)] + ([Call] + []));
    RunOne(cfg, two, Clock(later), [Call] + []);
    RunOne(cfg, three, Call, []);
    TokenIsLong(t);
  }

  lemma TokenIsLong(t: string)
    requires HasThreeParts(t)
    ensures t != ""
  {
    JwtExactly(t);
  }

  /** Every call that waits for a mint gets the token that arrives for it. */
  lemma WaitersGetTheToken(cfg: Config, s: State, m: nat, r: Response, t: string, c: nat)
    requires Inv(cfg, s) && Enabled(s, Arrive(m, r)) && Carries(r, t) && HasThreeParts(t)
    requires c < |s.callers| && s.callers[c] == Waiting(m)
    ensures var end := Run(cfg, s, [Arrive(m, r)] + ([Finally(m)] + ([Settle(c)] + [])));
            end.Some? && end.value.callers == s.callers[c := Settled(m, Fulfilled(t))]
  {
    FulfilledExactly(r, t);
    var one := Apply(cfg, s, Arrive(m, r));
    var two := Apply(cfg, one, Finally(m));
    RunOne(cfg, s, Arrive(m, r), [Finally(m)] + ([Settle(c)] + []));
    RunOne(cfg, one, Finally(m), [Settle(c)] + []);
    RunOne(cfg, two, Settle(c), []);
  }
}
