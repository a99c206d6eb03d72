/** What each call on the two account stores answers and changes, told in the fields of the rows. */
module Enrollment {
  import opened Prelude
  import opened Accounts

  /** The account after a worker enrolled: the worker's, offline, one generation on; the rest is as before. */
  predicate IsEnrolled(after: Account, before: Account, worker: string) {
    && after.worker == worker && after.generation == before.generation + 1 && after.status == "offline"
    && after.user == before.user && after.platform == before.platform && after.name == before.name
    && after.external == before.external
  }

  predicate IsNew(a: Account, user: string, platform: string, name: string) {
    && a.user == user && a.platform == platform && a.name == name
    && a.status == "unlinked" && a.external == "" && a.worker == "" && a.generation == 0
  }

  // ---- authenticating, in memory -----------------------------------------------------

  predicate MemoryCredential(m: Memory, token: string) { token in m.credentials && m.credentials[token] in m.accounts }

  predicate MemoryEnrollment(m: Memory, token: string) {
    token !in m.credentials && token in m.enrollments && m.enrollments[token] in m.accounts
  }

  /** A worker gets in if and only if it shows a credential of its platform, or an enrollment of its platform no
      later than the enrollment's end; it is told why not otherwise. */
  lemma MemoryAuthenticateIff(m: Memory, token: string, platform: string, credential: string, worker: string, now: Instant)
    ensures var r := MemoryStep(m, Authenticate(token, platform, credential, worker, now)).1;
            && (r.Authenticated? <==>
                  || (MemoryCredential(m, token) && m.accounts[m.credentials[token]].account.platform == platform)
                  || (MemoryEnrollment(m, token) && now <= m.accounts[m.enrollments[token]].enrollmentEnd
                      && m.accounts[m.enrollments[token]].account.platform == platform))
            && (r.PlatformMismatch? <==>
                  || (MemoryCredential(m, token) && m.accounts[m.credentials[token]].account.platform != platform)
                  || (MemoryEnrollment(m, token) && now <= m.accounts[m.enrollments[token]].enrollmentEnd
                      && m.accounts[m.enrollments[token]].account.platform != platform))
            && (r.ExpiredToken? <==> MemoryEnrollment(m, token) && now > m.accounts[m.enrollments[token]].enrollmentEnd)
            && (r.InvalidToken? <==> !MemoryCredential(m, token) && !MemoryEnrollment(m, token))
  {
  }

  /** A credential changes nothing; an enrollment is used up for the new credential; a refusal can only cost
      the token its enrollment. */
  lemma MemoryAuthenticateMeans(m: Memory, token: string, platform: string, credential: string, worker: string, now: Instant)
    ensures var (n, r) := MemoryStep(m, Authenticate(token, platform, credential, worker, now));
            if !r.Authenticated? then
              n == m || ((r.ExpiredToken? || r.InvalidToken?) && n == Memory(m.accounts, m.enrollments - {token}, m.credentials))
            else if token in m.credentials then
              n == m && r == Authenticated(m.credentials[token], m.accounts[m.credentials[token]].account, None)
            else
              var id := m.enrollments[token];
              && r == Authenticated(id, n.accounts[id].account, Some(credential))
              && IsEnrolled(n.accounts[id].account, m.accounts[id].account, worker)
              && n.accounts == m.accounts[id := n.accounts[id]]
              && n.enrollments == m.enrollments - {token} && n.credentials == m.credentials[credential := id]
  {
  }

  // ---- authenticating, in the tables ---------------------------------------------------

  predicate TableCredential(p: Tables, token: string) {
    token in p.credentials && !p.credentials[token].revoked && p.credentials[token].account in p.accounts
  }

  predicate TableEnrollment(p: Tables, token: string) {
    && !TableCredential(p, token) && token in p.pairings && p.pairings[token].account in p.accounts
    && !p.pairings[token].redeemed && !p.pairings[token].revoked
  }

  /** The new credential collides with nothing: its hash is free, and the account has none in force. */
  predicate CredentialFree(p: Tables, credential: string, account: string) {
    && credential !in p.credentials
    && forall t :: t in p.credentials ==> p.credentials[t].revoked || p.credentials[t].account != account
  }

  lemma NoneActive(p: Tables, account: string)
    ensures HasActive(p, account) <==>
              exists t :: t in p.credentials && !p.credentials[t].revoked && p.credentials[t].account == account
  {
    if t :| t in p.credentials && !p.credentials[t].revoked && p.credentials[t].account == account {
      assert ActiveCredential(p, t, account);
    }
  }

  lemma TablesAuthenticateIff(p: Tables, token: string, platform: string, credential: string, worker: string, now: Instant)
    ensures var r := TablesStep(p, Authenticate(token, platform, credential, worker, now)).1;
            && (r.Authenticated? <==>
                  || (TableCredential(p, token) && p.accounts[p.credentials[token].account].platform == platform)
                  || (TableEnrollment(p, token) && now <= p.pairings[token].expiresAt
                      && p.accounts[p.pairings[token].account].platform == platform
                      && CredentialFree(p, credential, p.pairings[token].account)))
            && (r.PlatformMismatch? <==>
                  || (TableCredential(p, token) && p.accounts[p.credentials[token].account].platform != platform)
                  || (TableEnrollment(p, token) && now <= p.pairings[token].expiresAt
                      && p.accounts[p.pairings[token].account].platform != platform))
            && (r.ExpiredToken? <==> TableEnrollment(p, token) && now > p.pairings[token].expiresAt)
            && (r.InvalidToken? <==> !TableCredential(p, token) && !TableEnrollment(p, token))
  {
    if TableEnrollment(p, token) {
      NoneActive(p, p.pairings[token].account);
    }
  }

  lemma TablesAuthenticateMeans(p: Tables, token: string, platform: string, credential: string, worker: string, now: Instant)
    ensures var (q, r) := TablesStep(p, Authenticate(token, platform, credential, worker, now));
            if !r.Authenticated? then q == p
            else if TableCredential(p, token) then
              var id := p.credentials[token].account;
              q == p && r == Authenticated(id, p.accounts[id], None)
            else
              var pairing := p.pairings[token];
              && r == Authenticated(pairing.account, q.accounts[pairing.account], Some(credential))
              && IsEnrolled(q.accounts[pairing.account], p.accounts[pairing.account], worker)
              && q.accounts == p.accounts[pairing.account := q.accounts[pairing.account]]
              && q.pairings == p.pairings[token := Pairing(pairing.account, pairing.expiresAt, true, pairing.revoked)]
              && q.credentials == p.credentials[credential := Credential(pairing.account, false)]
  {
  }

  // ---- accounts come and go ---------------------------------------------------------------

  /** A new account is unlinked, and its enrollment ends 600 seconds later. */
  lemma CreateMeans(m: Memory, p: Tables, op: Op)
    requires op.Create?
    ensures var (n, r) := MemoryStep(m, op);
            if op.platform != "signal" && op.platform != "telegram" then n == m && r == BadPlatform
            else
              && r == Created(op.account, op.enrollment) && op.account in n.accounts
              && IsNew(n.accounts[op.account].account, op.user, op.platform, op.name)
              && n.accounts[op.account].enrollmentEnd == op.now + 600
              && n == Memory(m.accounts[op.account := n.accounts[op.account]], m.enrollments[op.enrollment := op.account], m.credentials)
    ensures var (q, r) := TablesStep(p, op);
            if op.platform != "signal" && op.platform != "telegram" then q == p && r == BadPlatform
            else if op.account in p.accounts || op.enrollment in p.pairings then q == p && r == StoreError
            else
              && r == Created(op.account, op.enrollment) && op.account in q.accounts
              && IsNew(q.accounts[op.account], op.user, op.platform, op.name)
              && q == Tables(p.accounts[op.account := q.accounts[op.account]],
                             p.pairings[op.enrollment := Pairing(op.account, op.now + 600, false, false)], p.credentials)
  {
  }

  /** Only the owner deletes an account, and its enrollments and credentials go with it. */
  lemma DeleteMeans(m: Memory, p: Tables, user: string, id: string)
    ensures var (n, r) := MemoryStep(m, Delete(user, id));
            if id in m.accounts && m.accounts[id].account.user == user then
              && r == Done && n.accounts == m.accounts - {id}
              && (forall t :: t in n.enrollments <==> t in m.enrollments && m.enrollments[t] != id)
              && (forall t :: t in n.enrollments ==> n.enrollments[t] == m.enrollments[t])
              && (forall t :: t in n.credentials <==> t in m.credentials && m.credentials[t] != id)
              && (forall t :: t in n.credentials ==> n.credentials[t] == m.credentials[t])
            else n == m && r == NotFound
    ensures var (q, r) := TablesStep(p, Delete(user, id));
            if id in p.accounts && p.accounts[id].user == user then
              && r == Done && q.accounts == p.accounts - {id}
              && (forall t :: t in q.pairings <==> t in p.pairings && p.pairings[t].account != id)
              && (forall t :: t in q.pairings ==> q.pairings[t] == p.pairings[t])
              && (forall t :: t in q.credentials <==> t in p.credentials && p.credentials[t].account != id)
              && (forall t :: t in q.credentials ==> q.credentials[t] == p.credentials[t])
            else q == p && r == NotFound
  {
  }

  /** A status or identity report changes exactly those fields, and only for the generation that is current. */
  lemma ReportMeans(m: Memory, p: Tables, op: Op)
    requires op.SetStatus? || op.SetIdentity?
    ensures var (n, r) := MemoryStep(m, op);
            && r == Done
            && if op.account in m.accounts && m.accounts[op.account].account.generation == op.generation
               then
                 var a, end := m.accounts[op.account].account, m.accounts[op.account].enrollmentEnd;
                 n == m.(accounts := m.accounts[op.account := Entry(Account(a.user, a.platform, a.name, op.status,
                        if op.SetIdentity? then op.external else a.external, a.worker, a.generation), end)])
               else n == m
    ensures var (q, r) := TablesStep(p, op);
            && (r == BadStatus <==>
                  op.status !in {"live", "unlinked", "linking", "upgrade_required"} && !(op.SetStatus? && op.status == "offline"))
            && (r == BadStatus || r == Done)
            && if r == Done && op.account in p.accounts && p.accounts[op.account].generation == op.generation
               then
                 var a := p.accounts[op.account];
                 q == p.(accounts := p.accounts[op.account := Account(a.user, a.platform, a.name, op.status,
                        if op.SetIdentity? then op.external else a.external, a.worker, a.generation)])
               else q == p
  {
  }
}
