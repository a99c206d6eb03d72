/** Worker enrollment in the two account stores: the in-memory maps and the Postgres tables. A hash
    is modelled by the secret it was made from. */
module Accounts {
  import opened Prelude

  type Instant = int

  datatype Account = Account(
    user: string, platform: string, name: string, status: string, external: string,
    worker: string, generation: nat)

  /** One call of the store interface, with the random values it draws and the time it reads. */
  datatype Op =
    | Create(user: string, platform: string, name: string, account: string, enrollment: string, now: Instant)
    | Delete(user: string, account: string)
    | Authenticate(token: string, platform: string, credential: string, worker: string, now: Instant)
    | SetStatus(account: string, generation: nat, status: string)
    | SetIdentity(account: string, generation: nat, status: string, external: string)

  datatype Reply =
    | Created(account: string, enrollment: string)
    | Authenticated(account: string, view: Account, credential: Option<string>)
    | Done
    | NotFound
    | BadPlatform
    | BadStatus
    | InvalidToken
    | ExpiredToken
    | PlatformMismatch
    | StoreError

  const ENROLLMENT_TIME: int := 600

  predicate KnownPlatform(platform: string) { platform == "signal" || platform == "telegram" }

  function NewAccount(user: string, platform: string, name: string): Account {
    Account(user, platform, name, "unlinked", "", "", 0)
  }

  function Activated(a: Account, worker: string): Account {
    a.(worker := worker, generation := a.generation + 1, status := "offline")
  }

  // ---- in memory -----------------------------------------------------------

  /** An account with the end of its enrollment. */
  datatype Entry = Entry(account: Account, enrollmentEnd: Instant)

  datatype Memory = Memory(
    accounts: map<string, Entry>, enrollments: map<string, string>, credentials: map<string, string>)

  function WithoutAccount(tokens: map<string, string>, account: string): map<string, string> {
    map t | t in tokens && tokens[t] != account :: tokens[t]
  }

  function MemoryAuthenticate(m: Memory, token: string, platform: string, credential: string, worker: string,
                              now: Instant): (Memory, Reply) {
    if token in m.credentials then
      var id := m.credentials[token];
      if id !in m.accounts then (m, InvalidToken)
      else if m.accounts[id].account.platform != platform then (m, PlatformMismatch)
      else (m, Authenticated(id, m.accounts[id].account, None))
    else if token !in m.enrollments then (m, InvalidToken)
    else
      var id := m.enrollments[token];
      if id !in m.accounts then (m.(enrollments := m.enrollments - {token}), InvalidToken)
      else if now > m.accounts[id].enrollmentEnd then (m.(enrollments := m.enrollments - {token}), ExpiredToken)
      else if m.accounts[id].account.platform != platform then (m, PlatformMismatch)
      else
        var a := Activated(m.accounts[id].account, worker);
        (Memory(m.accounts[id := Entry(a, ZERO_TIME)], m.enrollments - {token}, m.credentials[credential := id]),
         Authenticated(id, a, Some(credential)))
  }

  /** Go's zero time, which lies before every time the clock can show. */
  const ZERO_TIME: Instant := -1

  function GuardedMemory(m: Memory, id: string, generation: nat, change: Account -> Account): Memory {
    if id !in m.accounts || m.accounts[id].account.generation != generation then m
    else m.(accounts := m.accounts[id := m.accounts[id].(account := change(m.accounts[id].account))])
  }

  function MemoryStep(m: Memory, op: Op): (Memory, Reply) {
    match op
    case Create(user, platform, name, id, enrollment, now) =>
      if !KnownPlatform(platform) then (m, BadPlatform)
      else
        (m.(accounts := m.accounts[id := Entry(NewAccount(user, platform, name), now + ENROLLMENT_TIME)],
            enrollments := m.enrollments[enrollment := id]),
         Created(id, enrollment))
    case Delete(user, id) =>
      if id !in m.accounts || m.accounts[id].account.user != user then (m, NotFound)
      else
        (Memory(m.accounts - {id}, WithoutAccount(m.enrollments, id), WithoutAccount(m.credentials, id)), Done)
    case Authenticate(token, platform, credential, worker, now) =>
      MemoryAuthenticate(m, token, platform, credential, worker, now)
    case SetStatus(id, generation, status) =>
      (GuardedMemory(m, id, generation, (a: Account) => a.(status := status)), Done)
    case SetIdentity(id, generation, status, external) =>
      (GuardedMemory(m, id, generation, (a: Account) => a.(status := status, external := external)), Done)
  }

  // ---- in Postgres ---------------------------------------------------------

  datatype Pairing = Pairing(account: string, expiresAt: Instant, redeemed: bool, revoked: bool)

  datatype Credential = Credential(account: string, revoked: bool)

  /** Pairing tokens and credentials, by their unique hash. */
  datatype Tables = Tables(
    accounts: map<string, Account>, pairings: map<string, Pairing>, credentials: map<string, Credential>)

  predicate ActiveCredential(p: Tables, t: string, account: string) {
    t in p.credentials && !p.credentials[t].revoked && p.credentials[t].account == account
  }

  predicate HasActive(p: Tables, account: string) {
    exists t :: t in p.credentials && ActiveCredential(p, t, account)
  }

  predicate StatusAllowed(status: string) {
    status in {"live", "offline", "unlinked", "linking", "upgrade_required"}
  }

  predicate IdentityAllowed(status: string) { status in {"live", "unlinked", "linking", "upgrade_required"} }

  function Redeem(p: Tables, token: string, platform: string, credential: string, worker: string,
                  now: Instant): (Tables, Reply) {
    if token !in p.pairings || p.pairings[token].account !in p.accounts then (p, InvalidToken)
    else
      var pairing := p.pairings[token];
      var id := pairing.account;
      if pairing.redeemed || pairing.revoked then (p, InvalidToken)
      else if now > pairing.expiresAt then (p, ExpiredToken)
      else if p.accounts[id].platform != platform then (p, PlatformMismatch)
      // the unique hash and the one-active-credential index
      else if credential in p.credentials || HasActive(p, id) then (p, StoreError)
      else
        var a := Activated(p.accounts[id], worker);
        (Tables(p.accounts[id := a], p.pairings[token := pairing.(redeemed := true)],
                p.credentials[credential := Credential(id, false)]),
         Authenticated(id, a, Some(credential)))
  }

  function TablesAuthenticate(p: Tables, token: string, platform: string, credential: string, worker: string,
                              now: Instant): (Tables, Reply) {
    if token in p.credentials && !p.credentials[token].revoked && p.credentials[token].account in p.accounts then
      var id := p.credentials[token].account;
      if p.accounts[id].platform != platform then (p, PlatformMismatch)
      else (p, Authenticated(id, p.accounts[id], None))
    else Redeem(p, token, platform, credential, worker, now)
  }

  function GuardedTables(p: Tables, id: string, generation: nat, change: Account -> Account): Tables {
    if id !in p.accounts || p.accounts[id].generation != generation then p
    else p.(accounts := p.accounts[id := change(p.accounts[id])])
  }

  function TablesStep(p: Tables, op: Op): (Tables, Reply) {
    match op
    case Create(user, platform, name, id, enrollment, now) =>
      if !KnownPlatform(platform) then (p, BadPlatform)
      else if id in p.accounts || enrollment in p.pairings then (p, StoreError)
      else
        (p.(accounts := p.accounts[id := NewAccount(user, platform, name)],
            pairings := p.pairings[enrollment := Pairing(id, now + ENROLLMENT_TIME, false, false)]),
         Created(id, enrollment))
    case Delete(user, id) =>
      if id !in p.accounts || p.accounts[id].user != user then (p, NotFound)
      else
        (Tables(p.accounts - {id},
                map t | t in p.pairings && p.pairings[t].account != id :: p.pairings[t],
                map t | t in p.credentials && p.credentials[t].account != id :: p.credentials[t]),
         Done)
    case Authenticate(token, platform, credential, worker, now) =>
      TablesAuthenticate(p, token, platform, credential, worker, now)
    case SetStatus(id, generation, status) =>
      if !StatusAllowed(status) then (p, BadStatus)
      else (GuardedTables(p, id, generation, (a: Account) => a.(status := status)), Done)
    case SetIdentity(id, generation, status, external) =>
      if !IdentityAllowed(status) then (p, BadStatus)
      else (GuardedTables(p, id, generation, (a: Account) => a.(status := status, external := external)), Done)
  }

  // ---- the in-memory store ---------------------------------------------------

  class MemoryStore {
    var accounts: map<string, Entry>
    var enrollments: map<string, string>
    var credentials: map<string, string>

    function Value(): Memory
      reads this
    {
      Memory(accounts, enrollments, credentials)
    }

    constructor ()
      ensures Value() == Memory(map[], map[], map[])
    {
      accounts, enrollments, credentials := map[], map[], map[];
    }

    method CreateAccount(user: string, platform: string, name: string, id: string, enrollment: string, now: Instant)
      returns (r: Reply)
      modifies this
      ensures (Value(), r) == MemoryStep(old(Value()), Create(user, platform, name, id, enrollment, now))
    {
      if platform != "signal" && platform != "telegram" {
        return BadPlatform;
      }
      accounts := accounts[id := Entry(Account(user, platform, name, "unlinked", "", "", 0), now + ENROLLMENT_TIME)];
      enrollments := enrollments[enrollment := id];
      r := Created(id, enrollment);
    }

    method DeleteAccount(user: string, id: string) returns (r: Reply)
      modifies this
      ensures (Value(), r) == MemoryStep(old(Value()), Delete(user, id))
    {
      if id !in accounts || accounts[id].account.user != user {
        return NotFound;
      }
      accounts := accounts - {id};
      enrollments := RemoveTokens(enrollments, id);
      credentials := RemoveTokens(credentials, id);
      r := Done;
    }

    method AuthenticateWorker(token: string, platform: string, credential: string, worker: string, now: Instant)
      returns (r: Reply)
      modifies this
      ensures (Value(), r) == MemoryStep(old(Value()), Authenticate(token, platform, credential, worker, now))
    {
      if token in credentials {
        var id := credentials[token];
        if id !in accounts {
          return InvalidToken;
        }
        if accounts[id].account.platform != platform {
          return PlatformMismatch;
        }
        return Authenticated(id, accounts[id].account, None);
      }
      if token !in enrollments {
        return InvalidToken;
      }
      var id := enrollments[token];
      if id !in accounts {
        enrollments := enrollments - {token};
        return InvalidToken;
      }
      if now > accounts[id].enrollmentEnd {
        enrollments := enrollments - {token};
        return ExpiredToken;
      }
      if accounts[id].account.platform != platform {
        return PlatformMismatch;
      }
      enrollments := enrollments - {token};
      credentials := credentials[credential := id];
      var a := accounts[id].account;
      a := a.(worker := worker);
      a := a.(generation := a.generation + 1);
      a := a.(status := "offline");
      accounts := accounts[id := Entry(a, ZERO_TIME)];
      r := Authenticated(id, a, Some(credential));
    }

    method SetWorkerStatus(id: string, generation: nat, status: string) returns (r: Reply)
      modifies this
      ensures (Value(), r) == MemoryStep(old(Value()), SetStatus(id, generation, status))
    {
      r := Done;
      if id in accounts && accounts[id].account.generation == generation {
        accounts := accounts[id := accounts[id].(account := accounts[id].account.(status := status))];
      }
    }

    method SetWorkerIdentity(id: string, generation: nat, status: string, external: string) returns (r: Reply)
      modifies this
      ensures (Value(), r) == MemoryStep(old(Value()), SetIdentity(id, generation, status, external))
    {
      r := Done;
      if id in accounts && accounts[id].account.generation == generation {
        var a := accounts[id].account.(status := status);
        accounts := accounts[id := accounts[id].(account := a.(external := external))];
      }
    }
  }

  /** Delete the account's tokens one by one. */
  method RemoveTokens(tokens: map<string, string>, account: string) returns (r: map<string, string>)
    ensures r == WithoutAccount(tokens, account)
  {
    r := tokens;
    var unseen := tokens.Keys;
    while unseen != {}
      invariant unseen <= tokens.Keys
      invariant forall t :: t in r <==> t in tokens && (t in unseen || tokens[t] != account)
      invariant forall t :: t in r ==> r[t] == tokens[t]
      decreases |unseen|
    {
      var t :| t in unseen;
      unseen := unseen - {t};
      if tokens[t] == account {
        r := r - {t};
      }
    }
  }

  // ---- the Postgres store ------------------------------------------------------

  class PostgresStore {
    var db: Tables

    constructor ()
      ensures db == Tables(map[], map[], map[])
    {
      db := Tables(map[], map[], map[]);
    }

    method CreateAccount(user: string, platform: string, name: string, id: string, enrollment: string, now: Instant)
      returns (r: Reply)
      modifies this
      ensures (db, r) == TablesStep(old(db), Create(user, platform, name, id, enrollment, now))
    {
      if platform != "signal" && platform != "telegram" {
        return BadPlatform;
      }
      var tx := db;
      if id in tx.accounts {
        return StoreError;
      }
      tx := tx.(accounts := tx.accounts[id := Account(user, platform, name, "unlinked", "", "", 0)]);
      if enrollment in tx.pairings {
        return StoreError;
      }
      tx := tx.(pairings := tx.pairings[enrollment := Pairing(id, now + ENROLLMENT_TIME, false, false)]);
      db := tx;
      r := Created(id, enrollment);
    }

    method AuthenticateWorker(token: string, platform: string, credential: string, worker: string, now: Instant)
      returns (r: Reply)
      modifies this
      ensures (db, r) == TablesStep(old(db), Authenticate(token, platform, credential, worker, now))
    {
      if token in db.credentials && !db.credentials[token].revoked && db.credentials[token].account in db.accounts {
        var id := db.credentials[token].account;
        if db.accounts[id].platform != platform {
          return PlatformMismatch;
        }
        return Authenticated(id, db.accounts[id], None);
      }
      r := RedeemEnrollment(token, platform, credential, worker, now);
    }

    method RedeemEnrollment(token: string, platform: string, credential: string, worker: string, now: Instant)
      returns (r: Reply)
      modifies this
      ensures (db, r) == Redeem(old(db), token, platform, credential, worker, now)
    {
      var tx := db;
      if token !in tx.pairings || tx.pairings[token].account !in tx.accounts {
        return InvalidToken;
      }
      var pairing := tx.pairings[token];
      var id := pairing.account;
      if pairing.redeemed || pairing.revoked {
        return InvalidToken;
      }
      if now > pairing.expiresAt {
        return ExpiredToken;
      }
      if tx.accounts[id].platform != platform {
        return PlatformMismatch;
      }
      tx := tx.(pairings := tx.pairings[token := pairing.(redeemed := true)]);
      if credential in tx.credentials || HasActive(tx, id) {
        return StoreError;
      }
      tx := tx.(credentials := tx.credentials[credential := Credential(id, false)]);
      var a := tx.accounts[id].(worker := worker);
      a := a.(generation := a.generation + 1, status := "offline");
      tx := tx.(accounts := tx.accounts[id := a]);
      db := tx;
      r := Authenticated(id, a, Some(credential));
    }

    method DeleteAccount(user: string, id: string) returns (r: Reply)
      modifies this
      ensures (db, r) == TablesStep(old(db), Delete(user, id))
    {
      if id !in db.accounts || db.accounts[id].user != user {
        return NotFound;
      }
      db := Tables(db.accounts - {id},
                   map t | t in db.pairings && db.pairings[t].account != id :: db.pairings[t],
                   map t | t in db.credentials && db.credentials[t].account != id :: db.credentials[t]);
      r := Done;
    }

    method SetWorkerStatus(id: string, generation: nat, status: string) returns (r: Reply)
      modifies this
      ensures (db, r) == TablesStep(old(db), SetStatus(id, generation, status))
    {
      if status != "live" && status != "offline" && status != "unlinked" && status != "linking"
         && status != "upgrade_required" {
        return BadStatus;
      }
      if id in db.accounts && db.accounts[id].generation == generation {
        db := db.(accounts := db.accounts[id := db.accounts[id].(status := status)]);
      }
      r := Done;
    }

    method SetWorkerIdentity(id: string, generation: nat, status: string, external: string) returns (r: Reply)
      modifies this
      ensures (db, r) == TablesStep(old(db), SetIdentity(id, generation, status, external))
    {
      if status != "live" && status != "unlinked" && status != "linking" && status != "upgrade_required" {
        return BadStatus;
      }
      if id in db.accounts && db.accounts[id].generation == generation {
        db := db.(accounts := db.accounts[id := db.accounts[id].(status := status, external := external)]);
      }
      r := Done;
    }
  }
}
