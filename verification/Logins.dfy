/** What the login and refresh transactions decide, and which logins succeed over a run. */
module Logins {
  import opened Prelude
  import opened Tokens

  // ---- one call ------------------------------------------------------------------

  /** The drawn ids and secret collide with nothing stored. */
  predicate DrawsFree(a: Auth, email: string, draws: Draws) {
    && (email in a.users || forall e :: e in a.users ==> a.users[e] != draws.user)
    && TokenFree(a, draws)
  }

  predicate TokenFree(a: Auth, draws: Draws) {
    draws.token !in a.tokens && forall id :: id in a.tokens ==> a.tokens[id].secret != draws.secret
  }

  /** The login is open: begun, not used up, missed fewer than five times and not past its end. */
  predicate IsOpen(a: Auth, id: string, now: Instant) {
    id in a.logins && !a.logins[id].consumed && a.logins[id].attempts < 5 && now <= a.logins[id].expiresAt
  }

  /** A new token of the user, by the side of the others. */
  predicate AddsToken(before: map<string, RefreshToken>, after: map<string, RefreshToken>, user: string, draws: Draws, end: Instant) {
    after == before[draws.token := RefreshToken(user, draws.secret, end, false, None)]
  }

  lemma StartedMeans(a: Auth, id: string, email: string, code: string, expiresAt: Instant)
    ensures var b := Started(a, id, email, code, expiresAt);
            && b.users == a.users && b.tokens == a.tokens && b.logins.Keys == a.logins.Keys + {id}
            && (forall l :: l in a.logins ==> b.logins[l] == a.logins[l])
            && (id !in a.logins ==> b.logins[id] == Login(email, code, expiresAt, 0, false))
  {
  }

  /** A login is granted if and only if it is open, the code is the stored one and the draws are free; it is
      refused if and only if it is not open or the code is another. */
  lemma VerifiedIff(a: Auth, id: string, code: string, now: Instant, lifetime: int, draws: Draws)
    ensures var r := Verified(a, id, code, now, lifetime, draws).1;
            && (r.Granted? <==>
                  IsOpen(a, id, now) && code == a.logins[id].code && DrawsFree(a, a.logins[id].email, draws))
            && (r.InvalidLogin? <==> !IsOpen(a, id, now) || code != a.logins[id].code)
            && !r.InvalidRefresh?
  {
    if id in a.logins {
      var email := a.logins[id].email;
      assert draws.user in a.users.Values <==> exists e :: e in a.users && a.users[e] == draws.user;
    }
  }

  /** A granted login is used up and opens a session for the address's user, who is added if new. */
  lemma GrantedMeans(a: Auth, id: string, code: string, now: Instant, lifetime: int, draws: Draws)
    requires Verified(a, id, code, now, lifetime, draws).1.Granted?
    ensures id in a.logins
    ensures var (b, r) := Verified(a, id, code, now, lifetime, draws);
            var l := a.logins[id];
            && b.logins == a.logins[id := Login(l.email, l.code, l.expiresAt, l.attempts, true)]
            && b.users == (if l.email in a.users then a.users else a.users[l.email := draws.user])
            && AddsToken(a.tokens, b.tokens, b.users[l.email], draws, now + lifetime)
            && r == Granted(b.users[l.email], draws.secret)
  {
  }

  /** A refused or failed login changes nothing, but for the miss that a wrong code of an open one costs. */
  lemma RefusedMeans(a: Auth, id: string, code: string, now: Instant, lifetime: int, draws: Draws)
    requires !Verified(a, id, code, now, lifetime, draws).1.Granted?
    ensures var b := Verified(a, id, code, now, lifetime, draws).0;
            if IsOpen(a, id, now) && code != a.logins[id].code
            then var l := a.logins[id];
              b == a.(logins := a.logins[id := Login(l.email, l.code, l.expiresAt, l.attempts + 1, l.attempts == 4)])
            else b == a
  {
  }

  predicate Redeemable(a: Auth, id: string, secret: string, now: Instant) {
    id in a.tokens && a.tokens[id].secret == secret && !a.tokens[id].revoked && now <= a.tokens[id].expiresAt
  }

  /** A refresh is granted if and only if an unrevoked, unexpired token has the secret and the draws are free; that
      token is then replaced by a new one of its user. A failed refresh changes nothing. */
  lemma RefreshedIff(a: Auth, secret: string, now: Instant, lifetime: int, draws: Draws)
    requires UniqueSecrets(a)
    ensures var (b, r) := Refreshed(a, secret, now, lifetime, draws);
            && (r.InvalidRefresh? <==> forall id :: !Redeemable(a, id, secret, now))
            && (r.Granted? <==> TokenFree(a, draws) && exists id :: Redeemable(a, id, secret, now))
            && !r.InvalidLogin? && (!r.Granted? ==> b == a)
            && (forall id :: r.Granted? && Redeemable(a, id, secret, now) ==>
                  && r == Granted(a.tokens[id].user, draws.secret)
                  && b == a.(tokens := b.tokens)
                  && var was := a.tokens[id];
                     AddsToken(a.tokens[id := RefreshToken(was.user, secret, was.expiresAt, true, Some(draws.token))],
                               b.tokens, was.user, draws, now + lifetime))
  {
    var found := TokenOf(a, secret);
    forall id | id in a.tokens && a.tokens[id].secret == secret
      ensures found == Some(id)
    {
      assert HasSecret(a, id, secret);
    }
    if found.Some? {
      assert Redeemable(a, found.value, secret, now) <==>
          !a.tokens[found.value].revoked && now <= a.tokens[found.value].expiresAt;
    }
  }

  // ---- runs, told by what was asked ------------------------------------------------

  /** The first start of a login. */
  predicate Begins(steps: seq<Step>, i: nat, l: string) {
    && i < |steps| && steps[i].Starts? && steps[i].id == l
    && forall j :: 0 <= j < i && steps[j].Starts? ==> steps[j].id != l
  }

  lemma {:induction false} RunLast(s: State, steps: seq<Step>, step: Step)
    ensures Run(s, steps + [step]) == After(Run(s, steps), step)
    decreases |steps|
  {
    if steps == [] {
      assert steps + [step] == [step];
    } else {
      assert (steps + [step])[1..] == steps[1..] + [step];
      RunLast(After(s, steps[0]), steps[1..], step);
    }
  }

  /** The login as its start stored it, used up only by success or five misses. */
  predicate AsBegun(login: Login, step: Step, wins: seq<string>, l: string) {
    && step.Starts? && login.email == step.email && login.code == step.code && login.expiresAt == step.expiresAt
    && (login.consumed ==> l in wins || login.attempts >= 5)
  }

  /** A step leaves a login's row as it was, but for attempts and use. */
  lemma StepKeepsLogin(s: State, step: Step, l: string)
    requires l in s.auth.logins
    ensures l in After(s, step).auth.logins
    ensures var x, y := s.auth.logins[l], After(s, step).auth.logins[l];
            && y.email == x.email && y.code == x.code && y.expiresAt == x.expiresAt
            && (y.consumed && !x.consumed ==> l in After(s, step).wins || y.attempts >= 5)
            && y.attempts >= x.attempts
            && (l in s.wins ==> l in After(s, step).wins)
  {
  }

  lemma StepAddsLogin(s: State, step: Step, l: string)
    requires l !in s.auth.logins && l in After(s, step).auth.logins
    ensures step.Starts? && step.id == l
    ensures After(s, step).auth.logins[l] == Login(step.email, step.code, step.expiresAt, 0, false)
  {
  }

  /** The logins stored after a run are those that were started, as first started. */
  lemma {:induction false} LoginsAsBegun(steps: seq<Step>, l: string) returns (i: nat)
    requires l in Run(INITIAL, steps).auth.logins
    ensures Begins(steps, i, l)
    ensures AsBegun(Run(INITIAL, steps).auth.logins[l], steps[i], Run(INITIAL, steps).wins, l)
    decreases |steps|
  {
    assert steps != [];
    var n := |steps| - 1;
    var before := steps[..n];
    assert steps == before + [steps[n]];
    RunLast(INITIAL, before, steps[n]);
    var s := Run(INITIAL, before);
    if l in s.auth.logins {
      i := LoginsAsBegun(before, l);
      StepKeepsLogin(s, steps[n], l);
    } else {
      StepAddsLogin(s, steps[n], l);
      i := n;
      forall j | 0 <= j < n && steps[j].Starts?
        ensures steps[j].id != l
      {
        StartsStay(before, j);
      }
    }
  }

  lemma {:induction false} StartsStay(steps: seq<Step>, j: nat)
    requires j < |steps| && steps[j].Starts?
    ensures steps[j].id in Run(INITIAL, steps).auth.logins
    decreases |steps|
  {
    var n := |steps| - 1;
    assert steps == steps[..n] + [steps[n]];
    RunLast(INITIAL, steps[..n], steps[n]);
    if j < n {
      StartsStay(steps[..n], j);
      StepKeepsLogin(Run(INITIAL, steps[..n]), steps[n], steps[j].id);
    }
  }

  /** After any run, a verification is granted if and only if the login was started, this is the code its
      first start stored and the time no later than that start's end, it never succeeded and missed fewer
      than five times before, and the draws are free. It counts as a miss if and only if it would have
      succeeded with the right code, draws apart. */
  lemma VerifiesOverRun(steps: seq<Step>, v: Step, i: nat)
    requires v.Verifies? && Begins(steps, i, v.id)
    ensures var s, t := Run(INITIAL, steps), Run(INITIAL, steps + [v]);
            var open := v.id !in s.wins && multiset(s.misses)[v.id] < 5 && v.now <= steps[i].expiresAt;
            && t.wins == s.wins + (if open && v.code == steps[i].code && DrawsFree(s.auth, steps[i].email, v.draws) then [v.id] else [])
            && t.misses == s.misses + (if open && v.code != steps[i].code then [v.id] else [])
  {
    var s := Run(INITIAL, steps);
    RunLast(INITIAL, steps, v);
    Reached(steps);
    StartsStay(steps, i);
    var j := LoginsAsBegun(steps, v.id);
    assert i == j;
    assert v.id in s.wins <==> multiset(s.wins)[v.id] > 0;
    VerifiedIff(s.auth, v.id, v.code, v.now, v.lifetime, v.draws);
    if Verified(s.auth, v.id, v.code, v.now, v.lifetime, v.draws).1.Granted? {
    } else {
      RefusedMeans(s.auth, v.id, v.code, v.now, v.lifetime, v.draws);
    }
  }

  /** Nothing else counts: a verification of a login never started, a start or a refresh adds no success and no miss. */
  lemma OthersOverRun(steps: seq<Step>, step: Step)
    requires step.Verifies? ==> forall i: nat :: !Begins(steps, i, step.id)
    ensures Run(INITIAL, steps + [step]).wins == Run(INITIAL, steps).wins
    ensures Run(INITIAL, steps + [step]).misses == Run(INITIAL, steps).misses
  {
    RunLast(INITIAL, steps, step);
    if step.Verifies? && step.id in Run(INITIAL, steps).auth.logins {
      var i := LoginsAsBegun(steps, step.id);
      assert false;
    }
  }

  /** Every successful login was verified with the code its own first start stored, no later than that start's end. */
  lemma {:induction false} WinsUseTheCode(steps: seq<Step>, l: string) returns (i: nat, j: nat)
    requires l in Run(INITIAL, steps).wins
    ensures Begins(steps, i, l) && i < j < |steps|
    ensures steps[j].Verifies? && steps[j].id == l && steps[j].code == steps[i].code && steps[j].now <= steps[i].expiresAt
    decreases |steps|
  {
    var n := |steps| - 1;
    var before := steps[..n];
    assert steps == before + [steps[n]];
    if l in Run(INITIAL, before).wins {
      i, j := WinsUseTheCode(before, l);
    } else {
      if !steps[n].Verifies? || forall k: nat :: !Begins(before, k, steps[n].id) {
        OthersOverRun(before, steps[n]);
        assert false;
      } else {
        i :| Begins(before, i, steps[n].id);
        VerifiesOverRun(before, steps[n], i);
        j := n;
      }
    }
  }

  /** Every miss was a wrong code. */
  lemma {:induction false} MissesAreWrong(steps: seq<Step>, l: string) returns (i: nat, j: nat)
    requires l in Run(INITIAL, steps).misses
    ensures Begins(steps, i, l) && i < j < |steps|
    ensures steps[j].Verifies? && steps[j].id == l && steps[j].code != steps[i].code && steps[j].now <= steps[i].expiresAt
    decreases |steps|
  {
    var n := |steps| - 1;
    var before := steps[..n];
    assert steps == before + [steps[n]];
    if l in Run(INITIAL, before).misses {
      i, j := MissesAreWrong(before, l);
    } else {
      if !steps[n].Verifies? || forall k: nat :: !Begins(before, k, steps[n].id) {
        OthersOverRun(before, steps[n]);
        assert false;
      } else {
        i :| Begins(before, i, steps[n].id);
        VerifiesOverRun(before, steps[n], i);
        j := n;
      }
    }
  }
}
