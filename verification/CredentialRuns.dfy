/** Whole runs of the credential store, over any interleaving of operations on its handles. */
module CredentialRuns {
  import opened Ordered
  import opened Outcomes
  import opened Credentials
  import Syntax

  /** One committed or refused operation, with the clock and the random values it drew. */
  datatype Step =
    | Record(document: Bytes)
    | Bind(fid: nat, authority: Bytes, identity: Syntax.Identity, now: Time, key: Bytes)
    | Invalidate
    | Issue(name: Bytes, now: Time, secret: Bytes, salt: Bytes)
    | Revoke(name: Bytes)
    | Login(identifier: Bytes, secret: Bytes, now: Time, sid: Bytes, jti: Bytes, accessJti: Bytes)
    | Rotate(token: Bytes, now: Time, jti: Bytes, accessJti: Bytes)
    | Logout(token: Bytes, now: Time)

  /** An issued token's kind and content. */
  datatype Ticket = Ticket(kind: Kind, claims: Claims)

  /** The tables; every identifier issued so far, when each session began, and every token issued. */
  datatype World = World(db: Tables, used: set<Bytes>, born: map<Bytes, Time>, issued: set<Ticket>)

  const START := World(FRESH, {}, map[], {})

  function TableStep(env: Env, db: Tables, step: Step): Outcome<()> {
    match step
    case Record(document) => SetEvidence(db, document)
    case Bind(fid, authority, identity, now, key) => Done(BindVerified(env, db, fid, authority, identity, now, key))
    case Invalidate => InvalidateAuthority(db)
    case Issue(name, now, secret, salt) => Done(IssuePassword(env, db, name, now, secret, salt))
    case Revoke(name) => RevokePassword(db, name)
    case Login(identifier, secret, now, sid, jti, accessJti) =>
      Done(Authenticate(env, db, identifier, secret, now, sid, jti, accessJti))
    case Rotate(token, now, jti, accessJti) => Done(RefreshSession(env, db, token, now, jti, accessJti))
    case Logout(token, now) => DeleteSession(env, db, token, now)
  }

  function Done<T>(o: Outcome<T>): Outcome<()> {
    Outcome(o.db, match o.result case Ok(_) => Ok(()) case Err(e) => Err(e))
  }

  function Tickets(account: Account, sid: Bytes, jti: Bytes, accessJti: Bytes, now: Time, exp: nat): set<Ticket> {
    {Ticket(Access, ClaimsFor(account, Access, sid, accessJti, now, Min(now + ACCESS_SECONDS, exp))),
     Ticket(Refresh, ClaimsFor(account, Refresh, sid, jti, now, exp))}
  }

  function Next(env: Env, w: World, step: Step): World {
    var o := TableStep(env, w.db, step);
    if o.result.Err? then w.(db := o.db)
    else match step
      case Login(_, _, now, sid, jti, accessJti) =>
        World(o.db, w.used + {sid, jti, accessJti}, w.born[sid := now],
              w.issued + Tickets(EnabledAccount(w.db).value, sid, jti, accessJti, now, now + REFRESH_SECONDS))
      case Rotate(token, now, jti, accessJti) =>
        var c := Bearer(env, w.db, token, Refresh, now, now).value;
        World(o.db, w.used + {jti, accessJti}, w.born,
              w.issued + Tickets(EnabledAccount(w.db).value, c.sid, jti, accessJti, now, c.exp))
      case _ => w.(db := o.db)
  }

  /** Random identifiers are well-formed and never repeat. */
  predicate FreshIds(w: World, step: Step) {
    match step
    case Login(_, _, _, sid, jti, accessJti) =>
      && IsId(sid) && IsId(jti) && IsId(accessJti) && sid != jti && sid != accessJti && jti != accessJti
      && sid !in w.used && jti !in w.used && accessJti !in w.used
    case Rotate(_, _, jti, accessJti) =>
      IsId(jti) && IsId(accessJti) && jti != accessJti && jti !in w.used && accessJti !in w.used
    case _ => true
  }

  function Run(env: Env, w: World, steps: seq<Step>): World
    decreases |steps|
  {
    if steps == [] then w else Run(env, Next(env, w, steps[0]), steps[1..])
  }

  predicate FreshRun(env: Env, w: World, steps: seq<Step>)
    decreases |steps|
  {
    steps == [] || (FreshIds(w, steps[0]) && FreshRun(env, Next(env, w, steps[0]), steps[1..]))
  }

  // ----- the table invariant -----

  predicate UniqueNames(passwords: seq<Password>) {
    forall i, j :: 0 <= i < j < |passwords| ==> passwords[i].name != passwords[j].name
  }

  ghost predicate AccountSound(env: Env, db: Tables) {
    db.account.Some? ==>
      var row := db.account.value;
      && env.validate(row.account.identity) && 0 < row.account.fid <= I64_MAX && ValidAuthority(row.account.authority)
      && env.emptyRoot(row.account.identity.did, row.account.repoRevision, row.repoKey) == Some(row.account.repoCid)
  }

  ghost predicate TablesSound(env: Env, db: Tables) {
    && (forall sid :: sid in db.sessions ==> HasName(db.passwords, db.sessions[sid].passwordName))
    && |db.passwords| <= MAX_PASSWORDS && UniqueNames(db.passwords) && |db.sessions| <= MAX_SESSIONS
    && (EnabledAccount(db).Err? ==> db.passwords == [] && db.sessions == map[] && db.evidence.None?)
    && AccountSound(env, db)
  }

  lemma WithoutNameDrops(passwords: seq<Password>, name: Bytes)
    ensures var rest := WithoutName(passwords, name);
            && |rest| <= |passwords|
            && (forall n :: HasName(rest, n) <==> HasName(passwords, n) && n != name)
            && (UniqueNames(passwords) ==> UniqueNames(rest))
  {
    if passwords != [] {
      var last := |passwords| - 1;
      var front := passwords[..last];
      WithoutNameDrops(front, name);
      var rest := WithoutName(front, name);
      forall n ensures HasName(passwords, n) <==> HasName(front, n) || passwords[last].name == n {
        if HasName(front, n) {
          var i :| 0 <= i < |front| && front[i].name == n;
          assert passwords[i].name == n;
        }
        if HasName(passwords, n) && passwords[last].name != n {
          var i :| 0 <= i < |passwords| && passwords[i].name == n;
          assert front[i].name == n;
        }
      }
      AppendName(rest, passwords[last]);
      if UniqueNames(passwords) {
        assert !HasName(front, passwords[last].name);
      }
    }
  }

  lemma AppendName(passwords: seq<Password>, p: Password)
    ensures forall n :: HasName(passwords + [p], n) <==> HasName(passwords, n) || p.name == n
    ensures UniqueNames(passwords) && !HasName(passwords, p.name) ==> UniqueNames(passwords + [p])
  {
    var more := passwords + [p];
    assert more[|passwords|] == p;
    forall n ensures HasName(more, n) <==> HasName(passwords, n) || p.name == n {
      if HasName(passwords, n) {
        var i :| 0 <= i < |passwords| && passwords[i].name == n;
        assert more[i].name == n;
      }
    }
  }

  lemma IssueStaysSound(env: Env, db: Tables, name: Bytes, now: Time, secret: Bytes, salt: Bytes)
    requires TablesSound(env, db)
    ensures TablesSound(env, IssuePassword(env, db, name, now, secret, salt).db)
  {
    AppendName(db.passwords, Password(name, salt, env.digest(salt, secret), now));
  }

  lemma RevokeStaysSound(env: Env, db: Tables, name: Bytes)
    requires TablesSound(env, db)
    ensures TablesSound(env, RevokePassword(db, name).db)
  {
    var after := RevokePassword(db, name).db;
    WithoutNameDrops(db.passwords, name);
    if ValidName(name) {
      FewerKeys(db.sessions, after.sessions);
      if EnabledAccount(db).Err? {
        assert after.sessions == map[];
      }
    }
  }

  /** New sessions of an enabled account are sound if they are few and name existing passwords. */
  lemma SessionsSound(env: Env, db: Tables, after: Tables)
    requires TablesSound(env, db) && EnabledAccount(db).Ok? && after == db.(sessions := after.sessions)
    requires |after.sessions| <= MAX_SESSIONS
    requires forall sid :: sid in after.sessions ==> HasName(db.passwords, after.sessions[sid].passwordName)
    ensures TablesSound(env, after)
  {
  }

  lemma LoginDoes(env: Env, db: Tables, identifier: Bytes, secret: Bytes, now: Time, sid: Bytes, jti: Bytes, accessJti: Bytes)
    requires Authenticate(env, db, identifier, secret, now, sid, jti, accessJti).result.Ok?
    ensures var after := Authenticate(env, db, identifier, secret, now, sid, jti, accessJti).db;
            var name := ProvenPassword(env, db, identifier, secret).value;
            && EnabledAccount(db).Ok? && HasName(db.passwords, name) && |Unexpired(db.sessions, now)| < MAX_SESSIONS
            && after == db.(sessions := Unexpired(db.sessions, now)[sid := Row(name, jti, now + REFRESH_SECONDS)])
  {
  }

  lemma LoginStaysSound(env: Env, db: Tables, identifier: Bytes, secret: Bytes, now: Time, sid: Bytes, jti: Bytes, accessJti: Bytes)
    requires TablesSound(env, db)
    ensures TablesSound(env, Authenticate(env, db, identifier, secret, now, sid, jti, accessJti).db)
  {
    var after := Authenticate(env, db, identifier, secret, now, sid, jti, accessJti);
    if after.result.Ok? {
      LoginDoes(env, db, identifier, secret, now, sid, jti, accessJti);
      assert after.db.sessions.Keys == Unexpired(db.sessions, now).Keys + {sid};
      SessionsSound(env, db, after.db);
    }
  }

  lemma RotateStaysSound(env: Env, db: Tables, token: Bytes, now: Time, jti: Bytes, accessJti: Bytes)
    requires TablesSound(env, db)
    ensures TablesSound(env, RefreshSession(env, db, token, now, jti, accessJti).db)
  {
    var rotated := RefreshSession(env, db, token, now, jti, accessJti);
    if rotated.result.Ok? {
      assert rotated.db.sessions.Keys == db.sessions.Keys;
    }
  }

  lemma LogoutStaysSound(env: Env, db: Tables, token: Bytes, now: Time)
    requires TablesSound(env, db)
    ensures TablesSound(env, DeleteSession(env, db, token, now).db)
  {
    FewerKeys(db.sessions, DeleteSession(env, db, token, now).db.sessions);
  }

  /** Every operation keeps the tables sound, and an operation that fails leaves them as they were. */
  lemma TablesStaySound(env: Env, db: Tables, step: Step)
    requires TablesSound(env, db)
    ensures TablesSound(env, TableStep(env, db, step).db)
    ensures TableStep(env, db, step).result.Err? ==> TableStep(env, db, step).db == db
  {
    match step {
      case Issue(name, now, secret, salt) => IssueStaysSound(env, db, name, now, secret, salt);
      case Revoke(name) => RevokeStaysSound(env, db, name);
      case Login(identifier, secret, now, sid, jti, accessJti) =>
        LoginStaysSound(env, db, identifier, secret, now, sid, jti, accessJti);
      case Rotate(token, now, jti, accessJti) => RotateStaysSound(env, db, token, now, jti, accessJti);
      case Logout(token, now) => LogoutStaysSound(env, db, token, now);
      case _ =>
    }
  }

  lemma {:induction false} TablesAlwaysSound(env: Env, w: World, steps: seq<Step>)
    requires TablesSound(env, w.db)
    ensures TablesSound(env, Run(env, w, steps).db)
    decreases |steps|
  {
    if steps != [] {
      TablesStaySound(env, w.db, steps[0]);
      TablesAlwaysSound(env, Next(env, w, steps[0]), steps[1..]);
    }
  }

  /** Once bound, the account keeps its FID, identity, key and repository for ever. */
  lemma {:induction false} BindingIsForever(env: Env, w: World, steps: seq<Step>)
    requires w.db.account.Some?
    ensures var after := Run(env, w, steps).db;
            && after.account.Some? && after.account.value.repoKey == w.db.account.value.repoKey
            && after.account.value.account.(enabled := true, authority := [])
               == w.db.account.value.account.(enabled := true, authority := [])
    decreases |steps|
  {
    if steps != [] {
      BindingIsForever(env, Next(env, w, steps[0]), steps[1..]);
    }
  }

  // ----- identifiers and tokens -----

  /** The refresh token with this identifier is the current one of some live session. */
  ghost predicate Current(db: Tables, jti: Bytes) {
    exists sid :: sid in db.sessions && db.sessions[sid].refreshJti == jti
  }

  ghost predicate RowSound(w: World, sid: Bytes)
    requires sid in w.db.sessions
  {
    && sid in w.used && sid in w.born && w.db.sessions[sid].refreshJti in w.used
    && w.db.sessions[sid].refreshExp == w.born[sid] + REFRESH_SECONDS
  }

  /** Every live session is on record and no two share a refresh token. */
  ghost predicate IdsSound(w: World) {
    && (forall sid :: sid in w.db.sessions ==> RowSound(w, sid))
    && (forall s1, s2 :: s1 in w.db.sessions && s2 in w.db.sessions && s1 != s2 ==>
          w.db.sessions[s1].refreshJti != w.db.sessions[s2].refreshJti)
    && w.born.Keys <= w.used
  }

  lemma FewerIds(w: World, after: World)
    requires IdsSound(w) && after == w.(db := after.db)
    requires forall sid :: sid in after.db.sessions ==> sid in w.db.sessions && after.db.sessions[sid] == w.db.sessions[sid]
    ensures IdsSound(after)
  {
  }

  lemma LoginIds(env: Env, w: World, step: Step)
    requires IdsSound(w) && FreshIds(w, step) && step.Login?
    ensures IdsSound(Next(env, w, step))
  {
  }

  lemma RotateIds(env: Env, w: World, step: Step)
    requires IdsSound(w) && FreshIds(w, step) && step.Rotate?
    ensures IdsSound(Next(env, w, step))
  {
  }

  lemma IdsStaySound(env: Env, w: World, step: Step)
    requires IdsSound(w) && FreshIds(w, step)
    ensures IdsSound(Next(env, w, step))
  {
    if step.Login? {
      LoginIds(env, w, step);
    } else if step.Rotate? {
      RotateIds(env, w, step);
    } else {
      FewerIds(w, Next(env, w, step));
    }
  }

  /** An identifier that was issued and is not current never becomes current again. */
  lemma StaysRetired(env: Env, w: World, step: Step, jti: Bytes)
    requires IdsSound(w) && FreshIds(w, step) && jti in w.used && !Current(w.db, jti)
    ensures jti in Next(env, w, step).used && !Current(Next(env, w, step).db, jti)
  {
    assert forall sid :: sid in w.db.sessions ==> w.db.sessions[sid].refreshJti != jti;
  }

  lemma {:induction false} RetiredForever(env: Env, w: World, steps: seq<Step>, jti: Bytes)
    requires IdsSound(w) && FreshRun(env, w, steps) && jti in w.used && !Current(w.db, jti)
    ensures !Current(Run(env, w, steps).db, jti)
    decreases |steps|
  {
    if steps != [] {
      IdsStaySound(env, w, steps[0]);
      StaysRetired(env, w, steps[0], jti);
      RetiredForever(env, Next(env, w, steps[0]), steps[1..], jti);
    }
  }

  /** Whoever still accepts a refresh token finds its identifier current. */
  lemma AcceptedIsCurrent(env: Env, db: Tables, token: Bytes, now: Time, rowAt: Time)
    requires Bearer(env, db, token, Refresh, now, rowAt).Ok?
    ensures env.open(token).Some? && Current(db, env.open(token).value.claims.jti)
  {
    var c := Bearer(env, db, token, Refresh, now, rowAt).value;
    assert db.sessions[c.sid].refreshJti == c.jti;
  }

  /** A rotation retires the token it consumed. */
  lemma RotationRetires(env: Env, w: World, token: Bytes, now: Time, jti: Bytes, accessJti: Bytes)
    requires IdsSound(w) && FreshIds(w, Rotate(token, now, jti, accessJti))
    requires RefreshSession(env, w.db, token, now, jti, accessJti).result.Ok?
    ensures var consumed := env.open(token).value.claims.jti;
            consumed in w.used && !Current(Next(env, w, Rotate(token, now, jti, accessJti)).db, consumed)
  {
    var c := Bearer(env, w.db, token, Refresh, now, now).value;
    assert RowSound(w, c.sid);
    var after := Next(env, w, Rotate(token, now, jti, accessJti));
    forall sid | sid in after.db.sessions ensures after.db.sessions[sid].refreshJti != c.jti {
      if sid != c.sid {
        assert w.db.sessions[sid].refreshJti != w.db.sessions[c.sid].refreshJti;
      }
    }
  }

  /** A refresh token is consumed at most once: after the rotation that consumed it, and whatever
      happens next on any handle, nothing accepts it again. */
  lemma NoReplay(env: Env, w: World, token: Bytes, now: Time, jti: Bytes, accessJti: Bytes,
                 later: seq<Step>, copy: Bytes, at: Time, rowAt: Time)
    requires IdsSound(w) && FreshRun(env, w, [Rotate(token, now, jti, accessJti)] + later)
    requires RefreshSession(env, w.db, token, now, jti, accessJti).result.Ok?
    requires env.open(copy).Some? && env.open(copy).value.claims.jti == env.open(token).value.claims.jti
    ensures Bearer(env, Run(env, w, [Rotate(token, now, jti, accessJti)] + later).db, copy, Refresh, at, rowAt).Err?
  {
    var step := Rotate(token, now, jti, accessJti);
    var steps := [step] + later;
    assert steps[1..] == later;
    IdsStaySound(env, w, step);
    RotationRetires(env, w, token, now, jti, accessJti);
    RetiredForever(env, Next(env, w, step), later, env.open(token).value.claims.jti);
    if Bearer(env, Run(env, w, steps).db, copy, Refresh, at, rowAt).Ok? {
      AcceptedIsCurrent(env, Run(env, w, steps).db, copy, at, rowAt);
    }
  }

  /** Once a session's row is gone, by logout, revocation, invalidation or expiry, its tokens are
      refused for ever, access tokens included. */
  lemma {:induction false} EndedForever(env: Env, w: World, steps: seq<Step>, sid: Bytes)
    requires IdsSound(w) && FreshRun(env, w, steps) && sid in w.used && sid !in w.db.sessions
    ensures sid !in Run(env, w, steps).db.sessions
    decreases |steps|
  {
    if steps != [] {
      IdsStaySound(env, w, steps[0]);
      EndedForever(env, Next(env, w, steps[0]), steps[1..], sid);
    }
  }

  // ----- lifetimes -----

  /** An issued token names the account and its session, and lives within the session's seven days. */
  ghost predicate TicketSound(w: World, t: Ticket) {
    && w.db.account.Some? && t.claims.sub == w.db.account.value.account.identity.did
    && t.claims.aud == w.db.account.value.account.identity.serviceDid
    && t.claims.scope == t.kind.Scope() && IsId(t.claims.sid) && IsId(t.claims.jti)
    && t.claims.sid in w.born && t.claims.iat < t.claims.exp <= w.born[t.claims.sid] + REFRESH_SECONDS
    && t.claims.exp - t.claims.iat <= t.kind.Lifetime()
    && (t.kind.Refresh? ==> t.claims.exp == w.born[t.claims.sid] + REFRESH_SECONDS)
  }

  ghost predicate WorldSound(env: Env, w: World) {
    && TablesSound(env, w.db) && IdsSound(w) && (forall t :: t in w.issued ==> TicketSound(w, t))
  }

  lemma NewTicketsSound(w: World, account: Account, sid: Bytes, jti: Bytes, accessJti: Bytes, now: Time, exp: nat)
    requires w.db.account.Some? && account.identity == w.db.account.value.account.identity
    requires IsId(sid) && IsId(jti) && IsId(accessJti) && sid in w.born
    requires now < exp == w.born[sid] + REFRESH_SECONDS && exp - now <= REFRESH_SECONDS
    ensures forall t :: t in Tickets(account, sid, jti, accessJti, now, exp) ==> TicketSound(w, t)
  {
  }

  lemma OldTicketStaysSound(env: Env, w: World, step: Step, t: Ticket)
    requires IdsSound(w) && FreshIds(w, step) && TicketSound(w, t)
    ensures TicketSound(Next(env, w, step), t)
  {
    assert t.claims.sid in w.used;
  }

  lemma TicketsStaySound(env: Env, w: World, step: Step)
    requires WorldSound(env, w) && FreshIds(w, step)
    ensures forall t :: t in Next(env, w, step).issued ==> TicketSound(Next(env, w, step), t)
  {
    var after := Next(env, w, step);
    forall t | t in w.issued ensures TicketSound(after, t) {
      OldTicketStaysSound(env, w, step, t);
    }
    if TableStep(env, w.db, step).result.Ok? {
      match step {
        case Login(_, _, now, sid, jti, accessJti) =>
          NewTicketsSound(after, EnabledAccount(w.db).value, sid, jti, accessJti, now, now + REFRESH_SECONDS);
        case Rotate(token, now, jti, accessJti) =>
          var c := Bearer(env, w.db, token, Refresh, now, now).value;
          assert RowSound(w, c.sid);
          NewTicketsSound(after, EnabledAccount(w.db).value, c.sid, jti, accessJti, now, c.exp);
        case _ =>
      }
    }
  }

  lemma {:induction false} AlwaysSound(env: Env, w: World, steps: seq<Step>)
    requires WorldSound(env, w) && FreshRun(env, w, steps)
    ensures WorldSound(env, Run(env, w, steps))
    decreases |steps|
  {
    if steps != [] {
      TablesStaySound(env, w.db, steps[0]);
      IdsStaySound(env, w, steps[0]);
      TicketsStaySound(env, w, steps[0]);
      AlwaysSound(env, Next(env, w, steps[0]), steps[1..]);
    }
  }

  /** From an empty store: all refresh tokens of one session expire together, seven days after its
      login, and none of its tokens outlives that moment. */
  lemma ChainLifetime(env: Env, steps: seq<Step>, t1: Ticket, t2: Ticket)
    requires FreshRun(env, START, steps)
    requires t1 in Run(env, START, steps).issued && t2 in Run(env, START, steps).issued
    requires t1.claims.sid == t2.claims.sid && t1.kind.Refresh?
    ensures t1.claims.sid in Run(env, START, steps).born
    ensures t1.claims.exp == Run(env, START, steps).born[t1.claims.sid] + REFRESH_SECONDS
    ensures t2.claims.exp <= t1.claims.exp && (t2.kind.Refresh? ==> t2.claims.exp == t1.claims.exp)
  {
    AlwaysSound(env, START, steps);
    var w := Run(env, START, steps);
    assert TicketSound(w, t1) && TicketSound(w, t2);
  }

  /** A token works exactly while it should: from its issue to its expiry, an issued token is accepted
      if and only if its session lives and, for a refresh token, no rotation has replaced it. Should the
      clock pass the token's expiry before the session's row is read, the row must also be unexpired. */
  lemma IssuedTokenWorks(env: Env, w: World, t: Ticket, now: Time, rowAt: Time)
    requires env.Lawful() && WorldSound(env, w) && t in w.issued && EnabledAccount(w.db).Ok?
    requires t.claims.iat <= now < t.claims.exp
    ensures var token := env.sign(HeaderFor(t.kind), t.claims);
            var row := t.claims.sid in w.db.sessions;
            && VerifyToken(env, token, EnabledAccount(w.db).value, t.kind, now) == Ok(t.claims)
            && (Bearer(env, w.db, token, t.kind, now, rowAt).Ok? <==>
                  && row && (rowAt >= t.claims.exp ==> w.db.sessions[t.claims.sid].refreshExp > rowAt)
                  && (t.kind.Refresh? ==> w.db.sessions[t.claims.sid].refreshJti == t.claims.jti))
  {
    assert TicketSound(w, t);
    assert env.validate(w.db.account.value.account.identity);
    assert Compact(t.kind, t.claims);
    if t.claims.sid in w.db.sessions {
      assert RowSound(w, t.claims.sid);
    }
  }

  // ----- what passwords and tokens are good for -----

  /** A password that was issued logs in at once, under the handle and under the DID, and proves its own
      name, whatever other passwords exist. */
  lemma IssuedPasswordLogsIn(env: Env, db: Tables, name: Bytes, now: Time, secret: Bytes, salt: Bytes, identifier: Bytes)
    requires IssuePassword(env, db, name, now, secret, salt).result.Ok? && PlausibleLogin(identifier, secret)
    ensures var after := IssuePassword(env, db, name, now, secret, salt).db;
            var identity := EnabledAccount(db).value.identity;
            ProvenPassword(env, after, identifier, secret)
            == if identifier == identity.handle || identifier == identity.did then Ok(name) else Err(InvalidCredentials)
  {
  }

  /** Some row proves the secret. */
  ghost predicate Proves(env: Env, passwords: seq<Password>, name: Bytes, secret: Bytes) {
    exists i :: 0 <= i < |passwords| && passwords[i].name == name && env.digest(passwords[i].salt, secret) == passwords[i].verifier
  }

  lemma {:induction false} ProvesAfter(env: Env, passwords: seq<Password>, revoked: Bytes, name: Bytes, secret: Bytes)
    ensures Proves(env, WithoutName(passwords, revoked), name, secret) <==> Proves(env, passwords, name, secret) && name != revoked
  {
    if passwords != [] {
      var last := |passwords| - 1;
      ProvesAfter(env, passwords[..last], revoked, name, secret);
      assert passwords == passwords[..last] + [passwords[last]];
      ProvesLast(env, passwords[..last], passwords[last], name, secret);
      ProvesLast(env, WithoutName(passwords[..last], revoked), passwords[last], name, secret);
    }
  }

  lemma ProvesLast(env: Env, front: seq<Password>, p: Password, name: Bytes, secret: Bytes)
    ensures Proves(env, front + [p], name, secret)
       <==> Proves(env, front, name, secret) || (p.name == name && env.digest(p.salt, secret) == p.verifier)
  {
    var all := front + [p];
    assert all[|front|] == p;
    if Proves(env, front, name, secret) {
      var i :| 0 <= i < |front| && front[i].name == name && env.digest(front[i].salt, secret) == front[i].verifier;
      assert all[i] == front[i];
    }
  }

  /** After a password is revoked, a login succeeds exactly when another password proves it. */
  lemma RevokedCannotLogIn(env: Env, db: Tables, revoked: Bytes, identifier: Bytes, secret: Bytes)
    requires ValidName(revoked) && PlausibleLogin(identifier, secret) && EnabledAccount(db).Ok?
    requires identifier == EnabledAccount(db).value.identity.handle || identifier == EnabledAccount(db).value.identity.did
    ensures ProvenPassword(env, RevokePassword(db, revoked).db, identifier, secret).Ok?
       <==> exists name :: name != revoked && Proves(env, db.passwords, name, secret)
  {
    var after := RevokePassword(db, revoked).db;
    var matched := Matching(env, after.passwords, |after.passwords|, secret);
    if matched.Some? {
      ProvesAfter(env, db.passwords, revoked, matched.value, secret);
      assert Proves(env, after.passwords, matched.value, secret);
    }
    if name :| name != revoked && Proves(env, db.passwords, name, secret) {
      ProvesAfter(env, db.passwords, revoked, name, secret);
    }
  }

  /** Revoking a password ends exactly the sessions that it opened: their tokens are refused from then
      on, and every other token fares as before. */
  lemma RevocationIsExact(env: Env, db: Tables, revoked: Bytes, token: Bytes, kind: Kind, now: Time, rowAt: Time)
    requires ValidName(revoked)
    ensures var before := Bearer(env, db, token, kind, now, rowAt);
            Bearer(env, RevokePassword(db, revoked).db, token, kind, now, rowAt)
            == if before.Ok? && db.sessions[before.value.sid].passwordName == revoked then Err(InvalidToken) else before
  {
  }

  /** No token passes for both kinds. */
  lemma KindsAreDisjoint(env: Env, db: Tables, token: Bytes, now: Time, rowAt: Time, later: Time, laterRowAt: Time)
    ensures Bearer(env, db, token, Access, now, rowAt).Err? || Bearer(env, db, token, Refresh, later, laterRowAt).Err?
  {
  }
}
