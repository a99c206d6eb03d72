/** Login codes and rotating refresh tokens. Hashes are injective, so a stored hash is modelled by
    the secret it was made from; each transaction is atomic and a failed one changes nothing. */
module Tokens {
  import opened Prelude

  type Instant = int

  datatype Login = Login(email: string, code: string, expiresAt: Instant, attempts: nat, consumed: bool)

  datatype RefreshToken = RefreshToken(
    user: string, secret: string, expiresAt: Instant, revoked: bool, replacedBy: Option<string>)

  /** The tables; `users` maps an address to the user's id. */
  datatype Auth = Auth(
    logins: map<string, Login>, users: map<string, string>, tokens: map<string, RefreshToken>)

  datatype Result =
    | Granted(user: string, secret: string)
    | InvalidLogin
    | InvalidRefresh
    | StoreError

  /** The random values one transaction draws: the ids of a user and a token, and the token's secret. */
  datatype Draws = Draws(user: string, token: string, secret: string)

  const MAX_ATTEMPTS: nat := 5

  predicate SecretTaken(tokens: map<string, RefreshToken>, secret: string) {
    exists id :: id in tokens && tokens[id].secret == secret
  }

  /** Insert a refresh token; the primary key and the unique hash must both be free. */
  function Issued(a: Auth, user: string, draws: Draws, expiresAt: Instant): Option<Auth> {
    if draws.token in a.tokens || SecretTaken(a.tokens, draws.secret) then None
    else Some(a.(tokens := a.tokens[draws.token := RefreshToken(user, draws.secret, expiresAt, false, None)]))
  }

  /** The user an address belongs to, inserting one if there is none. */
  function UpsertUser(a: Auth, email: string, proposed: string): Option<(Auth, string)> {
    if email in a.users then Some((a, a.users[email]))
    else if proposed in a.users.Values then None
    else Some((a.(users := a.users[email := proposed]), proposed))
  }

  function Started(a: Auth, id: string, email: string, code: string, expiresAt: Instant): Auth {
    if id in a.logins then a else a.(logins := a.logins[id := Login(email, code, expiresAt, 0, false)])
  }

  predicate Usable(l: Login, now: Instant) { !l.consumed && l.attempts < MAX_ATTEMPTS && now <= l.expiresAt }

  function Missed(l: Login): Login {
    l.(attempts := l.attempts + 1, consumed := l.attempts + 1 >= MAX_ATTEMPTS || l.consumed)
  }

  function Verified(a: Auth, id: string, code: string, now: Instant, lifetime: int, draws: Draws): (Auth, Result) {
    if id !in a.logins || !Usable(a.logins[id], now) then (a, InvalidLogin)
    else
      var l := a.logins[id];
      if code != l.code then (a.(logins := a.logins[id := Missed(l)]), InvalidLogin)
      else
        var consumed := a.(logins := a.logins[id := l.(consumed := true)]);
        var upserted := UpsertUser(consumed, l.email, draws.user);
        if upserted.None? then (a, StoreError)
        else
          var issued := Issued(upserted.value.0, upserted.value.1, draws, now + lifetime);
          if issued.None? then (a, StoreError) else (issued.value, Granted(upserted.value.1, draws.secret))
  }

  predicate HasSecret(a: Auth, id: string, secret: string) { id in a.tokens && a.tokens[id].secret == secret }

  ghost function TokenOf(a: Auth, secret: string): (r: Option<string>)
    ensures r.Some? ==> HasSecret(a, r.value, secret)
    ensures r.None? ==> forall id :: !HasSecret(a, id, secret)
  {
    if exists id :: HasSecret(a, id, secret) then var id :| HasSecret(a, id, secret); Some(id) else None
  }

  function Replaced(a: Auth, id: string, replacement: string): Auth
    requires id in a.tokens
  {
    a.(tokens := a.tokens[id := a.tokens[id].(revoked := true, replacedBy := Some(replacement))])
  }

  ghost function Refreshed(a: Auth, secret: string, now: Instant, lifetime: int, draws: Draws): (Auth, Result) {
    var found := TokenOf(a, secret);
    if found.None? || a.tokens[found.value].revoked || now > a.tokens[found.value].expiresAt then (a, InvalidRefresh)
    else
      var issued := Issued(a, a.tokens[found.value].user, draws, now + lifetime);
      if issued.None? then (a, StoreError)
      else (Replaced(issued.value, found.value, draws.token), Granted(a.tokens[found.value].user, draws.secret))
  }

  ghost predicate UniqueSecrets(a: Auth) {
    forall i, j, s :: HasSecret(a, i, s) && HasSecret(a, j, s) ==> i == j
  }

  /** Changes that keep every token's secret. */
  lemma SameSecrets(a: Auth, b: Auth)
    requires UniqueSecrets(a)
    requires forall id :: id in b.tokens ==> id in a.tokens && b.tokens[id].secret == a.tokens[id].secret
    ensures UniqueSecrets(b)
  {
    assert forall i, x :: HasSecret(b, i, x) ==> HasSecret(a, i, x);
  }

  // ---- the service -----------------------------------------------------------

  class Service {
    var auth: Auth
    const accessLifetime: int
    const refreshLifetime: int
    const loginLifetime: int

    /** The hashes are unique, as the schema demands. */
    ghost predicate Valid()
      reads this
    {
      UniqueSecrets(auth)
    }

    constructor (access: int, refresh: int, login: int)
      ensures Valid() && auth == Auth(map[], map[], map[])
    {
      auth := Auth(map[], map[], map[]);
      accessLifetime, refreshLifetime, loginLifetime := access, refresh, login;
    }

    method Start(id: string, email: string, code: string, now: Instant) returns (ok: bool)
      requires Valid()
      modifies this
      ensures Valid()
      ensures auth == Started(old(auth), id, email, code, now + loginLifetime)
      ensures ok <==> id !in old(auth.logins)
    {
      if id in auth.logins {
        return false;
      }
      auth := auth.(logins := auth.logins[id := Login(email, code, now + loginLifetime, 0, false)]);
      SameSecrets(old(auth), auth);
      ok := true;
    }

    method Verify(id: string, code: string, now: Instant, draws: Draws) returns (r: Result)
      requires Valid()
      modifies this
      ensures Valid()
      ensures (auth, r) == Verified(old(auth), id, code, now, refreshLifetime, draws)
    {
      var tx := auth;
      if id !in tx.logins {
        return InvalidLogin;
      }
      var l := tx.logins[id];
      if l.consumed || l.attempts >= MAX_ATTEMPTS || now > l.expiresAt {
        return InvalidLogin;
      }
      if l.code != code {
        tx := tx.(logins := tx.logins[id := Login(l.email, l.code, l.expiresAt, l.attempts + 1,
                                                  if l.attempts + 1 >= MAX_ATTEMPTS then true else l.consumed)]);
        SameSecrets(auth, tx);
        auth := tx;
        return InvalidLogin;
      }
      tx := tx.(logins := tx.logins[id := l.(consumed := true)]);
      var user := draws.user;
      if l.email in tx.users {
        user := tx.users[l.email];
      } else if draws.user in tx.users.Values {
        return StoreError;
      } else {
        tx := tx.(users := tx.users[l.email := draws.user]);
      }
      SameSecrets(auth, tx);
      var issued := IssueTokenPairWithId(tx, user, now, draws);
      if issued.None? {
        return StoreError;
      }
      auth := issued.value;
      r := Granted(user, draws.secret);
    }

    method Refresh(secret: string, now: Instant, draws: Draws) returns (r: Result)
      requires Valid()
      modifies this
      ensures Valid()
      ensures (auth, r) == Refreshed(old(auth), secret, now, refreshLifetime, draws)
    {
      if !SecretTaken(auth.tokens, secret) {
        return InvalidRefresh;
      }
      var id :| id in auth.tokens && auth.tokens[id].secret == secret;
      assert HasSecret(auth, id, secret);
      var token := auth.tokens[id];
      if token.revoked || now > token.expiresAt {
        return InvalidRefresh;
      }
      var issued := IssueTokenPairWithId(auth, token.user, now, draws);
      if issued.None? {
        return StoreError;
      }
      var tx := issued.value;
      auth := tx.(tokens := tx.tokens[id := tx.tokens[id].(revoked := true, replacedBy := Some(draws.token))]);
      SameSecrets(tx, auth);
      r := Granted(token.user, draws.secret);
    }

    method IssueTokenPairWithId(tx: Auth, user: string, now: Instant, draws: Draws) returns (next: Option<Auth>)
      ensures next == Issued(tx, user, draws, now + refreshLifetime)
      ensures next.Some? && UniqueSecrets(tx) ==> UniqueSecrets(next.value)
    {
      if UniqueSecrets(tx) && Issued(tx, user, draws, now + refreshLifetime).Some? {
        OneMoreSecret(tx, Issued(tx, user, draws, now + refreshLifetime).value, draws);
      }
      if draws.token in tx.tokens || SecretTaken(tx.tokens, draws.secret) {
        return None;
      }
      next := Some(tx.(tokens := tx.tokens[draws.token :=
        RefreshToken(user, draws.secret, now + refreshLifetime, false, None)]));
    }
  }

  // ---- runs --------------------------------------------------------------------

  datatype State = State(
    auth: Auth,
    // history: logins verified, logins missed, tokens redeemed, and the tokens descending from each verified login
    wins: seq<string>,
    misses: seq<string>,
    redeemed: seq<string>,
    chains: seq<seq<string>>)

  datatype Step =
    | Starts(id: string, email: string, code: string, expiresAt: Instant)
    | Verifies(id: string, code: string, now: Instant, lifetime: int, draws: Draws)
    | Refreshes(secret: string, now: Instant, lifetime: int, draws: Draws)

  ghost function Extended(chains: seq<seq<string>>, from: string, to: string): seq<seq<string>> {
    seq(|chains|, c requires 0 <= c < |chains| => if Ends(chains[c], from) then chains[c] + [to] else chains[c])
  }

  predicate Ends(chain: seq<string>, id: string) { chain != [] && chain[|chain| - 1] == id }

  ghost function After(s: State, step: Step): State {
    match step
    case Starts(id, email, code, expiresAt) => s.(auth := Started(s.auth, id, email, code, expiresAt))
    case Verifies(id, code, now, lifetime, draws) =>
      var (next, r) := Verified(s.auth, id, code, now, lifetime, draws);
      if r.Granted? then s.(auth := next, wins := s.wins + [id], chains := s.chains + [[draws.token]])
      else if next != s.auth then s.(auth := next, misses := s.misses + [id])
      else s
    case Refreshes(secret, now, lifetime, draws) =>
      var (next, r) := Refreshed(s.auth, secret, now, lifetime, draws);
      if r.Granted? then
        var id := TokenOf(s.auth, secret).value;
        s.(auth := next, redeemed := s.redeemed + [id], chains := Extended(s.chains, id, draws.token))
      else s
  }

  ghost function Run(s: State, steps: seq<Step>): State
    decreases |steps|
  {
    if steps == [] then s else Run(After(s, steps[0]), steps[1..])
  }

  const INITIAL: State := State(Auth(map[], map[], map[]), [], [], [], [])

  // ---- the invariant --------------------------------------------------------------

  predicate At(chains: seq<seq<string>>, c: int, i: int, id: string) {
    0 <= c < |chains| && 0 <= i < |chains[c]| && chains[c][i] == id
  }

  function Next(chain: seq<string>, i: nat): Option<string> {
    if i + 1 < |chain| then Some(chain[i + 1]) else None
  }

  /** `id` is the i-th token of chain c, replaced by the next one if there is one. */
  ghost predicate Linked(s: State, c: int, i: nat, id: string) {
    && id in s.auth.tokens
    && s.auth.tokens[id].replacedBy == (if At(s.chains, c, i, id) then Next(s.chains[c], i) else None)
    && (s.auth.tokens[id].revoked <==> s.auth.tokens[id].replacedBy.Some?)
  }

  ghost predicate ChainsLinked(s: State) {
    && (forall c :: 0 <= c < |s.chains| ==> s.chains[c] != [])
    && (forall c, i, id :: At(s.chains, c, i, id) ==> Linked(s, c, i, id))
    && (forall id :: id in s.auth.tokens ==> exists c, i :: At(s.chains, c, i, id))
  }

  ghost predicate ChainsDisjoint(s: State) {
    forall c, i, d, j, id :: At(s.chains, c, i, id) && At(s.chains, d, j, id) ==> c == d && i == j
  }

  /** The user of the c-th verified login. */
  ghost function Owner(s: State, c: nat): Option<string> {
    if c < |s.wins| && s.wins[c] in s.auth.logins && s.auth.logins[s.wins[c]].email in s.auth.users
    then Some(s.auth.users[s.auth.logins[s.wins[c]].email]) else None
  }

  ghost predicate ChainsOwned(s: State) {
    && |s.chains| == |s.wins|
    && forall c, i, id :: At(s.chains, c, i, id) && id in s.auth.tokens ==> Owner(s, c) == Some(s.auth.tokens[id].user)
  }

  ghost predicate Counted(s: State) {
    && (forall id :: id in s.auth.tokens ==>
          multiset(s.redeemed)[id] == if s.auth.tokens[id].revoked then 1 else 0)
    && (forall id :: id in s.redeemed ==> id in s.auth.tokens)
    && |Live(s.auth)| == |s.wins|
  }

  /** Unrevoked tokens. */
  function Live(a: Auth): set<string> { set id | id in a.tokens && !a.tokens[id].revoked }

  ghost predicate Budgeted(s: State) {
    && (forall l :: l in s.auth.logins ==>
          && multiset(s.misses)[l] == s.auth.logins[l].attempts <= MAX_ATTEMPTS
          && (s.auth.logins[l].attempts == MAX_ATTEMPTS ==> s.auth.logins[l].consumed)
          && multiset(s.wins)[l] <= 1
          && (multiset(s.wins)[l] == 1 ==> s.auth.logins[l].consumed && s.auth.logins[l].attempts < MAX_ATTEMPTS))
    && (forall l :: l in s.misses || l in s.wins ==> l in s.auth.logins)
  }

  ghost predicate Inv(s: State) {
    UniqueSecrets(s.auth) && ChainsLinked(s) && ChainsDisjoint(s) && ChainsOwned(s) && Counted(s) && Budgeted(s)
  }

  // ---- a verified login ------------------------------------------------------------

  /** What granting a login changes. */
  ghost predicate Opens(s: State, t: State, l: string, user: string, draws: Draws) {
    && draws.token !in s.auth.tokens && !SecretTaken(s.auth.tokens, draws.secret)
    && draws.token in t.auth.tokens
    && t.auth.tokens == s.auth.tokens[draws.token := t.auth.tokens[draws.token]]
    && t.auth.tokens[draws.token].secret == draws.secret && t.auth.tokens[draws.token].user == user
    && !t.auth.tokens[draws.token].revoked && t.auth.tokens[draws.token].replacedBy == None
    && l in s.auth.logins && !s.auth.logins[l].consumed && s.auth.logins[l].attempts < MAX_ATTEMPTS
    && t.auth.logins == s.auth.logins[l := s.auth.logins[l].(consumed := true)]
    && s.auth.logins[l].email in t.auth.users && t.auth.users[s.auth.logins[l].email] == user
    && (forall e :: e in s.auth.users ==> e in t.auth.users && t.auth.users[e] == s.auth.users[e])
    && t.wins == s.wins + [l] && t.misses == s.misses && t.redeemed == s.redeemed
    && t.chains == s.chains + [[draws.token]]
  }

  lemma GrantOpens(s: State, l: string, code: string, now: Instant, lifetime: int, draws: Draws)
    ensures var (next, r) := Verified(s.auth, l, code, now, lifetime, draws);
            && (r.Granted? ==> Opens(s, After(s, Verifies(l, code, now, lifetime, draws)), l, r.user, draws))
            && (!r.Granted? && next != s.auth ==>
                  l in s.auth.logins && Usable(s.auth.logins[l], now)
                  && next == s.auth.(logins := s.auth.logins[l := Missed(s.auth.logins[l])]))
  {
  }

  lemma OpenedAt(s: State, t: State, l: string, user: string, draws: Draws)
    requires Opens(s, t, l, user, draws)
    ensures forall c, i, id :: At(t.chains, c, i, id) <==>
              At(s.chains, c, i, id) || (c == |s.chains| && i == 0 && id == draws.token)
  {
  }

  lemma OpenedChains(s: State, t: State, l: string, user: string, draws: Draws)
    requires ChainsLinked(s) && ChainsDisjoint(s) && Opens(s, t, l, user, draws)
    ensures ChainsLinked(t) && ChainsDisjoint(t)
  {
    OpenedAt(s, t, l, user, draws);
    forall id | id in t.auth.tokens
      ensures exists c, i :: At(t.chains, c, i, id)
    {
      if id == draws.token {
        assert At(t.chains, |s.chains|, 0, id);
      } else {
        var c, i :| At(s.chains, c, i, id);
        assert At(t.chains, c, i, id);
      }
    }
    forall c, i, id | At(t.chains, c, i, id)
      ensures Linked(t, c, i, id)
    {
      if At(s.chains, c, i, id) {
        assert Linked(s, c, i, id);
      }
    }
    forall c, i, d, j, id | At(t.chains, c, i, id) && At(t.chains, d, j, id)
      ensures c == d && i == j
    {
      if At(s.chains, c, i, id) {
        assert Linked(s, c, i, id);
      }
      if At(s.chains, d, j, id) {
        assert Linked(s, d, j, id);
      }
    }
  }

  lemma OpenedOwners(s: State, t: State, l: string, user: string, draws: Draws)
    requires ChainsLinked(s) && ChainsOwned(s) && Opens(s, t, l, user, draws)
    ensures ChainsOwned(t)
  {
    OpenedAt(s, t, l, user, draws);
    forall c, i, id | At(t.chains, c, i, id) && id in t.auth.tokens
      ensures Owner(t, c) == Some(t.auth.tokens[id].user)
    {
      if At(s.chains, c, i, id) {
        assert Linked(s, c, i, id);
        assert Owner(t, c) == Owner(s, c);
      }
    }
  }

  lemma OneMoreSecret(a: Auth, b: Auth, draws: Draws)
    requires UniqueSecrets(a) && !SecretTaken(a.tokens, draws.secret)
    requires forall id :: id in b.tokens ==>
               if id == draws.token then b.tokens[id].secret == draws.secret
               else id in a.tokens && b.tokens[id].secret == a.tokens[id].secret
    ensures UniqueSecrets(b)
  {
    forall i, j, x | HasSecret(b, i, x) && HasSecret(b, j, x)
      ensures i == j
    {
      assert i != draws.token ==> HasSecret(a, i, x);
      assert j != draws.token ==> HasSecret(a, j, x);
    }
  }

  lemma OpenedCounts(s: State, t: State, l: string, user: string, draws: Draws)
    requires Counted(s) && Budgeted(s) && UniqueSecrets(s.auth) && Opens(s, t, l, user, draws)
    ensures Counted(t) && Budgeted(t) && UniqueSecrets(t.auth)
  {
    OneMoreSecret(s.auth, t.auth, draws);
    assert Live(t.auth) == Live(s.auth) + {draws.token};
    assert draws.token !in s.redeemed;
    assert multiset(s.redeemed)[draws.token] == 0;
  }

  // ---- a rotation --------------------------------------------------------------------

  /** What granting a refresh changes. */
  ghost predicate Rotates(s: State, t: State, from: string, draws: Draws) {
    && draws.token !in s.auth.tokens && !SecretTaken(s.auth.tokens, draws.secret)
    && from in s.auth.tokens && !s.auth.tokens[from].revoked
    && from in t.auth.tokens && draws.token in t.auth.tokens
    && t.auth.tokens == s.auth.tokens[draws.token := t.auth.tokens[draws.token]][from := t.auth.tokens[from]]
    && t.auth.tokens[from] == s.auth.tokens[from].(revoked := true, replacedBy := Some(draws.token))
    && t.auth.tokens[draws.token].secret == draws.secret && t.auth.tokens[draws.token].user == s.auth.tokens[from].user
    && !t.auth.tokens[draws.token].revoked && t.auth.tokens[draws.token].replacedBy == None
    && t.auth.logins == s.auth.logins && t.auth.users == s.auth.users
    && t.wins == s.wins && t.misses == s.misses && t.redeemed == s.redeemed + [from]
    && t.chains == Extended(s.chains, from, draws.token)
  }

  lemma GrantRotates(s: State, secret: string, now: Instant, lifetime: int, draws: Draws)
    ensures var (next, r) := Refreshed(s.auth, secret, now, lifetime, draws);
            r.Granted? ==> Rotates(s, After(s, Refreshes(secret, now, lifetime, draws)), TokenOf(s.auth, secret).value, draws)
  {
  }

  /** The redeemed token ends exactly one chain. */
  lemma EndOfOne(s: State, from: string) returns (c: nat)
    requires ChainsLinked(s) && ChainsDisjoint(s) && from in s.auth.tokens && !s.auth.tokens[from].revoked
    ensures c < |s.chains| && Ends(s.chains[c], from)
    ensures forall d :: 0 <= d < |s.chains| && Ends(s.chains[d], from) ==> d == c
  {
    var d, i :| At(s.chains, d, i, from);
    assert Linked(s, d, i, from);
    c := d;
    forall e | 0 <= e < |s.chains| && Ends(s.chains[e], from)
      ensures e == c
    {
      assert At(s.chains, e, |s.chains[e]| - 1, from);
    }
  }

  lemma RotatedAt(s: State, t: State, from: string, draws: Draws, c: nat)
    requires Rotates(s, t, from, draws)
    requires c < |s.chains| && Ends(s.chains[c], from)
    requires forall d :: 0 <= d < |s.chains| && Ends(s.chains[d], from) ==> d == c
    ensures forall d, i, id :: At(t.chains, d, i, id) <==>
              At(s.chains, d, i, id) || (d == c && i == |s.chains[c]| && id == draws.token)
    ensures t.chains == s.chains[c := s.chains[c] + [draws.token]]
  {
  }

  lemma RotatedLinks(s: State, t: State, from: string, draws: Draws)
    requires ChainsLinked(s) && ChainsDisjoint(s) && Rotates(s, t, from, draws)
    ensures ChainsLinked(t)
  {
    var k := EndOfOne(s, from);
    RotatedAt(s, t, from, draws, k);
    assert At(s.chains, k, |s.chains[k]| - 1, from);
    assert At(t.chains, k, |s.chains[k]|, draws.token);
    forall id | id in t.auth.tokens
      ensures exists c, i :: At(t.chains, c, i, id)
    {
      if id != draws.token {
        var c, i :| At(s.chains, c, i, id);
        assert At(t.chains, c, i, id);
      }
    }
    forall c, i, id | At(t.chains, c, i, id)
      ensures Linked(t, c, i, id)
    {
      if At(s.chains, c, i, id) {
        assert Linked(s, c, i, id);
        if id == from {
          assert c == k && i == |s.chains[k]| - 1;
        }
      }
    }
  }

  lemma RotatedRest(s: State, t: State, from: string, draws: Draws)
    requires ChainsLinked(s) && ChainsDisjoint(s) && ChainsOwned(s) && Rotates(s, t, from, draws)
    ensures ChainsDisjoint(t) && ChainsOwned(t)
  {
    var k := EndOfOne(s, from);
    RotatedAt(s, t, from, draws, k);
    assert At(s.chains, k, |s.chains[k]| - 1, from);
    forall c, i, id | At(s.chains, c, i, id)
      ensures id in s.auth.tokens && id != draws.token
    {
      assert Linked(s, c, i, id);
    }
    assert forall c :: Owner(t, c) == Owner(s, c);
  }

  lemma RotatedCounts(s: State, t: State, from: string, draws: Draws)
    requires Counted(s) && Budgeted(s) && UniqueSecrets(s.auth) && Rotates(s, t, from, draws)
    ensures Counted(t) && Budgeted(t) && UniqueSecrets(t.auth)
  {
    OneMoreSecret(s.auth, t.auth, draws);
    assert Live(t.auth) == Live(s.auth) - {from} + {draws.token};
    assert draws.token !in s.redeemed;
    assert multiset(s.redeemed)[draws.token] == 0;
  }

  // ---- every step, every run -----------------------------------------------------------

  /** Steps that leave the tokens alone. */
  lemma SameTokens(s: State, t: State)
    requires UniqueSecrets(s.auth) && ChainsLinked(s) && ChainsDisjoint(s) && ChainsOwned(s) && Counted(s)
    requires t.auth.tokens == s.auth.tokens && t.auth.users == s.auth.users
    requires t.chains == s.chains && t.wins == s.wins && t.redeemed == s.redeemed
    requires forall l :: l in s.auth.logins ==> l in t.auth.logins && t.auth.logins[l].email == s.auth.logins[l].email
    ensures UniqueSecrets(t.auth) && ChainsLinked(t) && ChainsDisjoint(t) && ChainsOwned(t) && Counted(t)
  {
    assert forall i, x :: HasSecret(t.auth, i, x) <==> HasSecret(s.auth, i, x);
    assert forall c, i, id :: Linked(t, c, i, id) <==> Linked(s, c, i, id);
    assert forall c :: Owner(s, c).Some? ==> Owner(t, c) == Owner(s, c);
  }

  lemma MissKeeps(s: State, t: State, l: string)
    requires Inv(s) && l in s.auth.logins && !s.auth.logins[l].consumed && s.auth.logins[l].attempts < MAX_ATTEMPTS
    requires t == s.(auth := s.auth.(logins := s.auth.logins[l := Missed(s.auth.logins[l])]), misses := s.misses + [l])
    ensures Inv(t)
  {
    SameTokens(s, t);
  }

  lemma StartKeeps(s: State, id: string, email: string, code: string, expiresAt: Instant)
    requires Inv(s)
    ensures Inv(After(s, Starts(id, email, code, expiresAt)))
  {
    var t := After(s, Starts(id, email, code, expiresAt));
    SameTokens(s, t);
    if id !in s.auth.logins {
      assert id !in s.misses && id !in s.wins;
      assert multiset(s.misses)[id] == 0 && multiset(s.wins)[id] == 0;
    }
  }

  lemma StepKeeps(s: State, step: Step)
    requires Inv(s)
    ensures Inv(After(s, step))
  {
    var t := After(s, step);
    match step {
      case Starts(id, email, code, expiresAt) => StartKeeps(s, id, email, code, expiresAt);
      case Verifies(id, code, now, lifetime, draws) =>
        GrantOpens(s, id, code, now, lifetime, draws);
        var r := Verified(s.auth, id, code, now, lifetime, draws);
        if r.1.Granted? {
          OpenedChains(s, t, id, r.1.user, draws);
          OpenedOwners(s, t, id, r.1.user, draws);
          OpenedCounts(s, t, id, r.1.user, draws);
        } else if r.0 != s.auth {
          MissKeeps(s, t, id);
        }
      case Refreshes(secret, now, lifetime, draws) =>
        GrantRotates(s, secret, now, lifetime, draws);
        var r := Refreshed(s.auth, secret, now, lifetime, draws);
        if r.1.Granted? {
          var from := TokenOf(s.auth, secret).value;
          RotatedLinks(s, t, from, draws);
          RotatedRest(s, t, from, draws);
          RotatedCounts(s, t, from, draws);
        }
    }
  }

  lemma {:induction false} RunKeeps(s: State, steps: seq<Step>)
    requires Inv(s)
    ensures Inv(Run(s, steps))
    decreases |steps|
  {
    if steps != [] {
      StepKeeps(s, steps[0]);
      RunKeeps(After(s, steps[0]), steps[1..]);
    }
  }

  lemma Reached(steps: seq<Step>)
    ensures Inv(Run(INITIAL, steps))
  {
    assert Live(INITIAL.auth) == {};
    RunKeeps(INITIAL, steps);
  }

  // ---- the theorems ---------------------------------------------------------------------

  /** After any run the refresh tokens are the disjoint union of one chain per verified login, linked
      in order by replaced_by and owned by that login's user; a token is unrevoked exactly at its
      chain's end. */
  lemma TokenChains(steps: seq<Step>)
    ensures var s := Run(INITIAL, steps);
            && |s.chains| == |s.wins|
            && (forall c :: 0 <= c < |s.chains| ==> s.chains[c] != [])
            && (forall id :: id in s.auth.tokens ==> exists c, i :: At(s.chains, c, i, id))
            && (forall c, i, id :: At(s.chains, c, i, id) ==>
                  && id in s.auth.tokens
                  && s.auth.tokens[id].replacedBy == Next(s.chains[c], i)
                  && (s.auth.tokens[id].revoked <==> i + 1 < |s.chains[c]|)
                  && Owner(s, c) == Some(s.auth.tokens[id].user))
            && (forall c, i, d, j, id :: At(s.chains, c, i, id) && At(s.chains, d, j, id) ==> c == d && i == j)
  {
    Reached(steps);
    var s := Run(INITIAL, steps);
    forall c, i, id | At(s.chains, c, i, id)
      ensures Linked(s, c, i, id)
    {
    }
  }

  /** A token is redeemed at most once, and exactly then revoked; there are as many unrevoked tokens
      as verified logins. */
  lemma RedeemedOnce(steps: seq<Step>)
    ensures var s := Run(INITIAL, steps);
            && (forall id :: multiset(s.redeemed)[id] <= 1)
            && (forall id :: id in s.redeemed <==> id in s.auth.tokens && s.auth.tokens[id].revoked)
            && |Live(s.auth)| == |s.wins|
  {
    Reached(steps);
    var s := Run(INITIAL, steps);
    forall id
      ensures multiset(s.redeemed)[id] <= 1
      ensures id in s.redeemed <==> id in s.auth.tokens && s.auth.tokens[id].revoked
    {
      assert id in s.redeemed <==> multiset(s.redeemed)[id] > 0;
    }
  }

  /** The token reached by following replaced_by `n` times. */
  function Follow(a: Auth, id: string, n: nat): Option<string>
    decreases n
  {
    if id !in a.tokens then None
    else if n == 0 then Some(id)
    else if a.tokens[id].replacedBy.None? then None
    else Follow(a, a.tokens[id].replacedBy.value, n - 1)
  }

  lemma {:induction false} FollowChain(s: State, c: nat, i: nat, n: nat)
    requires ChainsLinked(s) && c < |s.chains| && i + n < |s.chains[c]|
    ensures Follow(s.auth, s.chains[c][i], n) == Some(s.chains[c][i + n])
    decreases n
  {
    assert At(s.chains, c, i, s.chains[c][i]);
    assert Linked(s, c, i, s.chains[c][i]);
    if n > 0 {
      FollowChain(s, c, i + 1, n - 1);
    }
  }

  /** Read off the table alone: from every token, replaced_by leads without a cycle to exactly one
      unrevoked token, which belongs to the same user. */
  lemma LeadsToOneSession(steps: seq<Step>, id: string) returns (n: nat)
    requires id in Run(INITIAL, steps).auth.tokens
    ensures var a := Run(INITIAL, steps).auth;
            && Follow(a, id, n).Some? && Follow(a, id, n).value in Live(a)
            && a.tokens[Follow(a, id, n).value].user == a.tokens[id].user
            && (forall m: nat :: Follow(a, id, m).Some? <==> m <= n)
            && (forall m: nat, k: nat :: m < k <= n ==> Follow(a, id, m) != Follow(a, id, k))
  {
    Reached(steps);
    var s := Run(INITIAL, steps);
    var c, i :| At(s.chains, c, i, id);
    var last := |s.chains[c]| - 1;
    n := last - i;
    assert At(s.chains, c, last, s.chains[c][last]);
    assert Linked(s, c, last, s.chains[c][last]);
    assert Owner(s, c) == Some(s.auth.tokens[id].user);
    forall m: nat | m <= n
      ensures Follow(s.auth, id, m) == Some(s.chains[c][i + m])
    {
      FollowChain(s, c, i, m);
    }
    forall m: nat, k: nat | m < k <= n
      ensures Follow(s.auth, id, m) != Follow(s.auth, id, k)
    {
      assert At(s.chains, c, i + m, s.chains[c][i + m]);
      assert At(s.chains, c, i + k, s.chains[c][i + k]);
    }
    forall m: nat | m > n
      ensures Follow(s.auth, id, m).None?
    {
      FollowPast(s.auth, id, n, m);
    }
  }

  /** There is nothing beyond a token that has not been replaced. */
  lemma {:induction false} FollowPast(a: Auth, id: string, n: nat, m: nat)
    requires n < m && Follow(a, id, n).Some?
    requires Follow(a, id, n).value in a.tokens && a.tokens[Follow(a, id, n).value].replacedBy.None?
    ensures Follow(a, id, m).None?
    decreases n
  {
    if n > 0 {
      FollowPast(a, a.tokens[id].replacedBy.value, n - 1, m - 1);
    }
  }

  /** A login is verified at most once, records at most five failures, and cannot be verified after the fifth. */
  lemma LoginBudget(steps: seq<Step>, l: string)
    ensures var s := Run(INITIAL, steps);
            && multiset(s.wins)[l] <= 1 && multiset(s.misses)[l] <= 5
            && (multiset(s.wins)[l] == 1 ==> multiset(s.misses)[l] < 5)
  {
    Reached(steps);
    var s := Run(INITIAL, steps);
    if l !in s.auth.logins {
      assert l !in s.wins && l !in s.misses;
    }
  }
}
