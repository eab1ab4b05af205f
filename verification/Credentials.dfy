/** The private credential store: one account, its passwords, sessions and evidence. */
module Credentials {
  import opened Ordered
  import opened Outcomes
  import Syntax

  const MAX_PASSWORDS := 16
  const MAX_SESSIONS := 64
  const ACCESS_SECONDS := 30 * 60
  const REFRESH_SECONDS := 7 * 24 * 60 * 60
  const MAX_EVIDENCE := 32 * 1024
  const I64_MAX := 0x7fff_ffff_ffff_ffff

  /** Unix seconds, as far as the system clock reaches. */
  type Time = t: int | 0 <= t <= I64_MAX

  datatype Error =
    | InvalidInput | InvalidCredentials | InvalidToken | ExpiredToken | NotBound | Disabled
    | BindingConflict | LimitReached | Persistence

  // ----- tokens -----

  datatype Kind = Access | Refresh {
    function Typ(): string { if Access? then "at+jwt" else "refresh+jwt" }
    function Scope(): string { if Access? then "com.atproto.appPass" else "com.atproto.refresh" }
    function Lifetime(): nat { if Access? then ACCESS_SECONDS else REFRESH_SECONDS }
  }

  datatype Header = Header(alg: string, typ: string)
  datatype Claims = Claims(sub: Bytes, aud: Bytes, scope: string, iat: nat, exp: nat, jti: Bytes, sid: Bytes)
  datatype Opened = Opened(header: Header, claims: Claims)

  function HeaderFor(kind: Kind): Header {
    Header("HS256", kind.Typ())
  }

  /** 32 bytes in hexadecimal. */
  predicate IsId(s: Bytes) {
    |s| == 64 && forall i :: 0 <= i < 64 ==> Syntax.HexDigit(s[i])
  }

  /** What the store takes from other code: the identity check, the revision for a time, the root of
      the empty repository of a DID, revision and key, the password digest, and token signing under
      the store's own key. `open` gives a token's content if its three parts decode and its MAC
      verifies. */
  datatype Env = Env(
    validate: Syntax.Identity -> bool,
    revision: Time -> Bytes,
    emptyRoot: (Bytes, Bytes, Bytes) -> Option<Bytes>,
    validScalar: Bytes -> bool,
    digest: (Bytes, Bytes) -> Bytes,
    sign: (Header, Claims) -> Bytes,
    open: Bytes -> Option<Opened>)
  {
    ghost predicate Lawful() {
      && (forall h, c :: open(sign(h, c)) == Some(Opened(h, c)))
      && (forall kind: Kind, c: Claims :: Compact(kind, c) ==> |sign(HeaderFor(kind), c)| <= 4096)
      && (forall id :: validate(id) ==> Plain(id.did) && Plain(id.serviceDid))
      && (forall id, t, key :: validate(id) ==> emptyRoot(id.did, revision(t), key).Some?)
    }
  }

  /** A short printable text that JSON writes as it is. */
  predicate Plain(s: Bytes) {
    |s| <= 300 && forall i :: 0 <= i < |s| ==> 0x20 <= s[i] <= 0x7e && s[i] != 0x22 && s[i] != 0x5c
  }

  /** Claims that take few bytes in JSON. */
  predicate Compact(kind: Kind, c: Claims) {
    && Plain(c.sub) && Plain(c.aud) && c.scope == kind.Scope()
    && c.iat <= c.exp <= I64_MAX + REFRESH_SECONDS && IsId(c.jti) && IsId(c.sid)
  }

  // ----- the tables -----

  datatype Account = Account(fid: nat, authority: Bytes, identity: Syntax.Identity, enabled: bool,
                             createdAt: Time, repoRevision: Bytes, repoCid: Bytes)
  datatype AccountRow = AccountRow(account: Account, repoKey: Bytes)
  datatype Password = Password(name: Bytes, salt: Bytes, verifier: Bytes, createdAt: Time)
  datatype Row = Row(passwordName: Bytes, refreshJti: Bytes, refreshExp: nat)

  /** Passwords are in row order. */
  datatype Tables = Tables(account: Option<AccountRow>, passwords: seq<Password>, sessions: map<Bytes, Row>,
                           evidence: Option<Bytes>)

  const FRESH := Tables(None, [], map[], None)

  datatype Session = Session(access: Bytes, refresh: Bytes)

  predicate ValidName(name: Bytes) {
    && 0 < |name| <= 64 && name[0] != 0x20 && name[|name| - 1] != 0x20
    && forall i :: 0 <= i < |name| ==> 0x20 <= name[i] <= 0x7e
  }

  predicate ValidAuthority(a: Bytes) {
    0 < |a| <= 128 && forall i :: 0 <= i < |a| ==> Syntax.Alphanumeric(a[i]) || a[i] == 0x3a || a[i] == 0x5f || a[i] == 0x2d
  }

  predicate HasName(passwords: seq<Password>, name: Bytes) {
    exists i :: 0 <= i < |passwords| && passwords[i].name == name
  }

  function WithoutName(passwords: seq<Password>, name: Bytes): seq<Password> {
    if passwords == [] then []
    else
      var rest := WithoutName(passwords[..|passwords| - 1], name);
      if passwords[|passwords| - 1].name == name then rest else rest + [passwords[|passwords| - 1]]
  }

  function EnabledAccount(db: Tables): Result<Account, Error> {
    if db.account.None? then Err(NotBound)
    else if !db.account.value.account.enabled then Err(Disabled)
    else Ok(db.account.value.account)
  }

  // ----- what each operation does -----

  datatype Outcome<T> = Outcome(db: Tables, result: Result<T, Error>)

  function SetEvidence(db: Tables, document: Bytes): Outcome<()> {
    if document == [] || |document| > MAX_EVIDENCE then Outcome(db, Err(InvalidInput))
    else if EnabledAccount(db).Err? then Outcome(db, Err(EnabledAccount(db).error))
    else Outcome(db.(evidence := Some(document)), Ok(()))
  }

  function BindVerified(env: Env, db: Tables, fid: nat, authority: Bytes, identity: Syntax.Identity, now: Time, key: Bytes): Outcome<Account> {
    if !env.validate(identity) || fid == 0 || fid > I64_MAX || !ValidAuthority(authority) then Outcome(db, Err(InvalidInput))
    else if db.account.Some? then
      var account := db.account.value.account;
      if account.fid != fid || account.identity != identity || (account.enabled && account.authority != authority)
      then Outcome(db, Err(BindingConflict))
      else
        var bound := account.(enabled := true, authority := authority);
        Outcome(db.(account := Some(AccountRow(bound, db.account.value.repoKey))), Ok(bound))
    else if !env.validScalar(key) then Outcome(db, Err(Persistence))
    else
      match env.emptyRoot(identity.did, env.revision(now), key)
      case None => Outcome(db, Err(InvalidInput))
      case Some(root) =>
        var account := Account(fid, authority, identity, true, now, env.revision(now), root);
        Outcome(db.(account := Some(AccountRow(account, key))), Ok(account))
  }

  function InvalidateAuthority(db: Tables): Outcome<()> {
    if db.account.None? then Outcome(db, Err(NotBound)) else
      var row := db.account.value;
      Outcome(Tables(Some(row.(account := row.account.(enabled := false))), [], map[], None), Ok(()))
  }

  function IssuePassword(env: Env, db: Tables, name: Bytes, now: Time, secret: Bytes, salt: Bytes): Outcome<Bytes> {
    if !ValidName(name) then Outcome(db, Err(InvalidInput))
    else if EnabledAccount(db).Err? then Outcome(db, Err(EnabledAccount(db).error))
    else if |db.passwords| >= MAX_PASSWORDS then Outcome(db, Err(LimitReached))
    else if HasName(db.passwords, name) then Outcome(db, Err(InvalidInput))
    else Outcome(db.(passwords := db.passwords + [Password(name, salt, env.digest(salt, secret), now)]), Ok(secret))
  }

  function RevokePassword(db: Tables, name: Bytes): Outcome<()> {
    if !ValidName(name) then Outcome(db, Err(InvalidInput))
    else Outcome(db.(passwords := WithoutName(db.passwords, name),
                     sessions := map sid | sid in db.sessions && db.sessions[sid].passwordName != name :: db.sessions[sid]), Ok(()))
  }

  /** The last row among the first `n` whose verifier matches. */
  function Matching(env: Env, passwords: seq<Password>, n: nat, secret: Bytes): (r: Option<Bytes>)
    requires n <= |passwords|
    ensures r.Some? ==> exists i :: 0 <= i < n && passwords[i].name == r.value && env.digest(passwords[i].salt, secret) == passwords[i].verifier
    ensures r.None? ==> forall i :: 0 <= i < n ==> env.digest(passwords[i].salt, secret) != passwords[i].verifier
  {
    if n == 0 then None
    else if env.digest(passwords[n - 1].salt, secret) == passwords[n - 1].verifier then Some(passwords[n - 1].name)
    else Matching(env, passwords, n - 1, secret)
  }

  const SECRET_PREFIX: Bytes := Syntax.Ascii("psky-")

  predicate PlausibleLogin(identifier: Bytes, secret: Bytes) {
    |identifier| <= 512 && |secret| == 48 && SECRET_PREFIX <= secret
  }

  /** The password that a login proves. Every row takes part, not only the first sixteen. */
  function ProvenPassword(env: Env, db: Tables, identifier: Bytes, secret: Bytes): Result<Bytes, Error> {
    if !PlausibleLogin(identifier, secret) || EnabledAccount(db).Err? then Err(InvalidCredentials) else
      var account := EnabledAccount(db).value;
      var matched := Matching(env, db.passwords, |db.passwords|, secret);
      if (identifier == account.identity.handle || identifier == account.identity.did) && matched.Some?
      then Ok(matched.value) else Err(InvalidCredentials)
  }

  function ClaimsFor(account: Account, kind: Kind, sid: Bytes, jti: Bytes, now: Time, exp: nat): Claims {
    Claims(account.identity.did, account.identity.serviceDid, kind.Scope(), now, exp, jti, sid)
  }

  function CreateSession(env: Env, account: Account, sid: Bytes, jti: Bytes, accessJti: Bytes, now: Time, exp: nat): Session {
    Session(env.sign(HeaderFor(Access), ClaimsFor(account, Access, sid, accessJti, now, Min(now + ACCESS_SECONDS, exp))),
            env.sign(HeaderFor(Refresh), ClaimsFor(account, Refresh, sid, jti, now, exp)))
  }

  function Unexpired(sessions: map<Bytes, Row>, now: Time): map<Bytes, Row> {
    map sid | sid in sessions && sessions[sid].refreshExp > now :: sessions[sid]
  }

  function Authenticate(env: Env, db: Tables, identifier: Bytes, secret: Bytes, now: Time, sid: Bytes, jti: Bytes, accessJti: Bytes): Outcome<Session> {
    if ProvenPassword(env, db, identifier, secret).Err? then Outcome(db, Err(InvalidCredentials)) else
      var live := Unexpired(db.sessions, now);
      if |live| >= MAX_SESSIONS then Outcome(db, Err(LimitReached)) else
        var exp := now + REFRESH_SECONDS;
        Outcome(db.(sessions := live[sid := Row(ProvenPassword(env, db, identifier, secret).value, jti, exp)]),
                Ok(CreateSession(env, EnabledAccount(db).value, sid, jti, accessJti, now, exp)))
  }

  function VerifyToken(env: Env, token: Bytes, account: Account, kind: Kind, now: Time): Result<Claims, Error> {
    if |token| > 4096 || env.open(token).None? then Err(InvalidToken) else
      var o := env.open(token).value;
      var c := o.claims;
      if o.header != HeaderFor(kind) || c.sub != account.identity.did || c.aud != account.identity.serviceDid
         || c.scope != kind.Scope() || c.iat > now || c.exp <= c.iat || c.exp - c.iat > kind.Lifetime()
         || !IsId(c.sid) || !IsId(c.jti)
      then Err(InvalidToken)
      else if c.exp <= now then Err(ExpiredToken)
      else Ok(c)
  }

  predicate SessionLive(db: Tables, c: Claims, kind: Kind, now: Time) {
    && c.sid in db.sessions && db.sessions[c.sid].refreshExp > now
    && (kind.Refresh? ==> db.sessions[c.sid].refreshJti == c.jti && db.sessions[c.sid].refreshExp == c.exp)
  }

  /** The claims that a bearer proves against the live state. The clock is read for the token, and may be
      read again for the session's row. */
  function Bearer(env: Env, db: Tables, token: Bytes, kind: Kind, now: Time, rowAt: Time): Result<Claims, Error> {
    if EnabledAccount(db).Err? then Err(InvalidToken) else
      match VerifyToken(env, token, EnabledAccount(db).value, kind, now)
      case Err(e) => Err(e)
      case Ok(c) => if SessionLive(db, c, kind, rowAt) then Ok(c) else Err(InvalidToken)
  }

  function RefreshSession(env: Env, db: Tables, token: Bytes, now: Time, jti: Bytes, accessJti: Bytes): Outcome<Session> {
    match Bearer(env, db, token, Refresh, now, now)
    case Err(e) => Outcome(db, Err(e))
    case Ok(c) =>
      Outcome(db.(sessions := db.sessions[c.sid := db.sessions[c.sid].(refreshJti := jti)]),
              Ok(CreateSession(env, EnabledAccount(db).value, c.sid, jti, accessJti, now, c.exp)))
  }

  function DeleteSession(env: Env, db: Tables, token: Bytes, now: Time): Outcome<()> {
    match Bearer(env, db, token, Refresh, now, now)
    case Err(e) => Outcome(db, Err(e))
    case Ok(c) => Outcome(db.(sessions := db.sessions - {c.sid}), Ok(()))
  }
}
