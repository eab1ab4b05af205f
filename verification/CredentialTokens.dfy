/** What tokens and passwords are good for: exactly what is accepted, and what each operation changes of that. */
module CredentialTokens {
  import opened Ordered
  import opened Outcomes
  import opened Credentials
  import opened CredentialRuns
  import Syntax

  // ----- what is accepted -----

  /** 64 hexadecimal digits. */
  predicate Identifier(s: Bytes) {
    |s| == 64 && forall i :: 0 <= i < 64 ==> Syntax.HexDigit(s[i])
  }

  /** A token of the kind, signed by the store for this account, with claims `c`. */
  predicate Genuine(env: Env, token: Bytes, account: Account, kind: Kind, c: Claims) {
    && |token| <= 4096
    && env.open(token) == Some(Opened(Header("HS256", if kind.Access? then "at+jwt" else "refresh+jwt"), c))
    && c.scope == (if kind.Access? then "com.atproto.appPass" else "com.atproto.refresh")
    && c.sub == account.identity.did && c.aud == account.identity.serviceDid
    && c.iat < c.exp <= c.iat + (if kind.Access? then 1_800 else 604_800)
    && Identifier(c.sid) && Identifier(c.jti)
  }

  /** The session is there and unexpired; for a refresh token, it is the current one. */
  predicate Backed(db: Tables, kind: Kind, c: Claims, rowAt: Time) {
    && c.sid in db.sessions && rowAt < db.sessions[c.sid].refreshExp
    && (kind.Refresh? ==> db.sessions[c.sid].refreshJti == c.jti && db.sessions[c.sid].refreshExp == c.exp)
  }

  /** A bearer is accepted if and only if it is genuine, within its time, and backed by a session of the
      enabled account. It is called expired exactly when only its time is over. */
  lemma BearerExactly(env: Env, db: Tables, token: Bytes, kind: Kind, now: Time, rowAt: Time, c: Claims)
    ensures Bearer(env, db, token, kind, now, rowAt) == Ok(c)
       <==> && db.account.Some? && db.account.value.account.enabled
            && Genuine(env, token, db.account.value.account, kind, c) && c.iat <= now < c.exp && Backed(db, kind, c, rowAt)
    ensures Bearer(env, db, token, kind, now, rowAt) == Err(ExpiredToken)
       <==> && db.account.Some? && db.account.value.account.enabled
            && exists o :: Genuine(env, token, db.account.value.account, kind, o) && o.exp <= now
  {
    if db.account.Some? && env.open(token).Some? {
      var o := env.open(token).value.claims;
      assert VerifyToken(env, token, db.account.value.account, kind, now) == Err(ExpiredToken)
         ==> Genuine(env, token, db.account.value.account, kind, o) && o.exp <= now;
    }
  }

  /** From its expiry on, an issued token is refused. */
  lemma ExpiredRefused(env: Env, w: World, t: Ticket, now: Time, rowAt: Time)
    requires env.Lawful() && t in w.issued && now >= t.claims.exp
    ensures Bearer(env, w.db, env.sign(HeaderFor(t.kind), t.claims), t.kind, now, rowAt).Err?
  {
    var token := env.sign(HeaderFor(t.kind), t.claims);
    if Bearer(env, w.db, token, t.kind, now, rowAt).Ok? {
      BearerExactly(env, w.db, token, t.kind, now, rowAt, Bearer(env, w.db, token, t.kind, now, rowAt).value);
    }
  }

  // ----- what a login returns -----

  lemma SignedIsGenuine(env: Env, account: Account, kind: Kind, sid: Bytes, jti: Bytes, now: Time, exp: nat)
    requires env.Lawful() && env.validate(account.identity) && IsId(sid) && IsId(jti)
    requires now < exp <= now + kind.Lifetime()
    ensures Genuine(env, env.sign(HeaderFor(kind), ClaimsFor(account, kind, sid, jti, now, exp)), account, kind,
                    ClaimsFor(account, kind, sid, jti, now, exp))
  {
    assert Compact(kind, ClaimsFor(account, kind, sid, jti, now, exp));
  }

  /** Of two genuine readings of one token there is only one. */
  lemma OneReading(env: Env, db: Tables, token: Bytes, kind: Kind, c: Claims, t: Time, rowAt: Time)
    requires db.account.Some? && db.account.value.account.enabled && Genuine(env, token, db.account.value.account, kind, c)
    ensures Bearer(env, db, token, kind, t, rowAt).Ok? <==> c.iat <= t < c.exp && Backed(db, kind, c, rowAt)
    ensures Bearer(env, db, token, kind, t, rowAt).Ok? ==> Bearer(env, db, token, kind, t, rowAt).value == c
  {
    BearerExactly(env, db, token, kind, t, rowAt, c);
    if Bearer(env, db, token, kind, t, rowAt).Ok? {
      BearerExactly(env, db, token, kind, t, rowAt, Bearer(env, db, token, kind, t, rowAt).value);
    }
  }

  /** The tokens that a login returns: the access token is accepted for thirty minutes and the refresh token
      for seven days, each as its own kind only, and both for the new session. */
  lemma LoginTokens(env: Env, w: World, identifier: Bytes, secret: Bytes, now: Time, sid: Bytes, jti: Bytes, accessJti: Bytes,
                    t: Time, rowAt: Time)
    requires env.Lawful() && WorldSound(env, w) && FreshIds(w, Login(identifier, secret, now, sid, jti, accessJti))
    requires Authenticate(env, w.db, identifier, secret, now, sid, jti, accessJti).result.Ok?
    ensures var o := Authenticate(env, w.db, identifier, secret, now, sid, jti, accessJti);
            var access := Bearer(env, o.db, o.result.value.access, Access, t, rowAt);
            var refresh := Bearer(env, o.db, o.result.value.refresh, Refresh, t, rowAt);
            && (access.Ok? <==> now <= t < now + 1_800 && rowAt < now + 604_800)
            && (refresh.Ok? <==> now <= t < now + 604_800 && rowAt < now + 604_800)
            && (access.Ok? ==> access.value.sid == sid && access.value.jti == accessJti)
            && (refresh.Ok? ==> refresh.value.sid == sid && refresh.value.jti == jti)
            && Bearer(env, o.db, o.result.value.access, Refresh, t, rowAt).Err?
            && Bearer(env, o.db, o.result.value.refresh, Access, t, rowAt).Err?
  {
    var o := Authenticate(env, w.db, identifier, secret, now, sid, jti, accessJti);
    LoginOpens(env, w.db, identifier, secret, now, sid, jti, accessJti);
    LoginToken(env, o.db, o.result.value.access, Access, sid, accessJti, now, now + 1_800, t, rowAt);
    LoginToken(env, o.db, o.result.value.refresh, Refresh, sid, jti, now, now + 604_800, t, rowAt);
  }

  /** A login's row and tokens. */
  lemma LoginOpens(env: Env, db: Tables, identifier: Bytes, secret: Bytes, now: Time, sid: Bytes, jti: Bytes, accessJti: Bytes)
    requires Authenticate(env, db, identifier, secret, now, sid, jti, accessJti).result.Ok?
    ensures var o := Authenticate(env, db, identifier, secret, now, sid, jti, accessJti);
            && EnabledAccount(db).Ok? && o.db.account == db.account
            && sid in o.db.sessions && o.db.sessions[sid].refreshExp == now + 604_800 && o.db.sessions[sid].refreshJti == jti
            && o.result.value.access == env.sign(HeaderFor(Access), ClaimsFor(db.account.value.account, Access, sid, accessJti, now, now + 1_800))
            && o.result.value.refresh == env.sign(HeaderFor(Refresh), ClaimsFor(db.account.value.account, Refresh, sid, jti, now, now + 604_800))
  {
  }

  lemma LoginToken(env: Env, db: Tables, token: Bytes, kind: Kind, sid: Bytes, jti: Bytes, now: Time, exp: nat, t: Time, rowAt: Time)
    requires env.Lawful() && EnabledAccount(db).Ok? && env.validate(db.account.value.account.identity) && IsId(sid) && IsId(jti)
    requires token == env.sign(HeaderFor(kind), ClaimsFor(db.account.value.account, kind, sid, jti, now, exp))
    requires now < exp <= now + kind.Lifetime() && sid in db.sessions && db.sessions[sid].refreshExp == now + 604_800
    requires kind.Refresh? ==> db.sessions[sid].refreshJti == jti && exp == now + 604_800
    ensures var r := Bearer(env, db, token, kind, t, rowAt);
            && (r.Ok? <==> now <= t < exp && rowAt < now + 604_800)
            && (r.Ok? ==> r.value.sid == sid && r.value.jti == jti)
            && Bearer(env, db, token, if kind.Access? then Refresh else Access, t, rowAt).Err?
  {
    var account := db.account.value.account;
    var c := ClaimsFor(account, kind, sid, jti, now, exp);
    SignedIsGenuine(env, account, kind, sid, jti, now, exp);
    OneReading(env, db, token, kind, c, t, rowAt);
    WrongKind(env, db, token, kind, c, if kind.Access? then Refresh else Access, t, rowAt);
  }

  lemma WrongKind(env: Env, db: Tables, token: Bytes, kind: Kind, c: Claims, other: Kind, t: Time, rowAt: Time)
    requires db.account.Some? && Genuine(env, token, db.account.value.account, kind, c) && other != kind
    ensures Bearer(env, db, token, other, t, rowAt).Err?
  {
    if Bearer(env, db, token, other, t, rowAt).Ok? {
      BearerExactly(env, db, token, other, t, rowAt, Bearer(env, db, token, other, t, rowAt).value);
    }
  }

  /** The tokens that a rotation returns: for the same session and up to the same end, the access token for
      thirty minutes at most. */
  lemma RotationTokens(env: Env, w: World, token: Bytes, now: Time, jti: Bytes, accessJti: Bytes, t: Time, rowAt: Time)
    requires env.Lawful() && WorldSound(env, w) && FreshIds(w, Rotate(token, now, jti, accessJti))
    requires RefreshSession(env, w.db, token, now, jti, accessJti).result.Ok?
    ensures var o := RefreshSession(env, w.db, token, now, jti, accessJti);
            && env.open(token).Some? && env.open(token).value.claims.sid in w.db.sessions
            && var sid := env.open(token).value.claims.sid;
               var end := w.db.sessions[sid].refreshExp;
               var access := Bearer(env, o.db, o.result.value.access, Access, t, rowAt);
               var refresh := Bearer(env, o.db, o.result.value.refresh, Refresh, t, rowAt);
               && (access.Ok? <==> now <= t < now + 1_800 && t < end && rowAt < end)
               && (refresh.Ok? <==> now <= t < end && rowAt < end)
               && (access.Ok? ==> access.value.sid == sid && access.value.jti == accessJti)
               && (refresh.Ok? ==> refresh.value.sid == sid && refresh.value.jti == jti)
  {
    var o := RefreshSession(env, w.db, token, now, jti, accessJti);
    var account := EnabledAccount(w.db).value;
    var c := Bearer(env, w.db, token, Refresh, now, now).value;
    BearerExactly(env, w.db, token, Refresh, now, now, c);
    var end := c.exp;
    var accessEnd := Min(now + 1_800, end);
    SignedIsGenuine(env, account, Access, c.sid, accessJti, now, accessEnd);
    SignedIsGenuine(env, account, Refresh, c.sid, jti, now, end);
    OneReading(env, o.db, o.result.value.access, Access, ClaimsFor(account, Access, c.sid, accessJti, now, accessEnd), t, rowAt);
    OneReading(env, o.db, o.result.value.refresh, Refresh, ClaimsFor(account, Refresh, c.sid, jti, now, end), t, rowAt);
  }

  // ----- what operations change of it -----

  /** A logout ends its session's tokens and no others. */
  lemma LogoutIsExact(env: Env, db: Tables, token: Bytes, now: Time, other: Bytes, kind: Kind, t: Time, rowAt: Time)
    requires DeleteSession(env, db, token, now).result.Ok?
    ensures var before := Bearer(env, db, other, kind, t, rowAt);
            && env.open(token).Some?
            && Bearer(env, DeleteSession(env, db, token, now).db, other, kind, t, rowAt)
               == if before.Ok? && before.value.sid == env.open(token).value.claims.sid then Err(InvalidToken) else before
  {
  }

  /** A rotation refuses the session's other refresh tokens and leaves every access token and every other
      session's tokens as they were. */
  lemma RotationIsExact(env: Env, db: Tables, token: Bytes, now: Time, jti: Bytes, accessJti: Bytes, other: Bytes, kind: Kind, t: Time, rowAt: Time)
    requires RefreshSession(env, db, token, now, jti, accessJti).result.Ok?
    requires env.open(other).Some? ==> env.open(other).value.claims.jti != jti
    ensures var before := Bearer(env, db, other, kind, t, rowAt);
            && env.open(token).Some?
            && Bearer(env, RefreshSession(env, db, token, now, jti, accessJti).db, other, kind, t, rowAt)
               == if kind.Refresh? && before.Ok? && before.value.sid == env.open(token).value.claims.sid then Err(InvalidToken) else before
  {
  }

  /** After the authority is invalidated nothing is accepted, and no password logs in, until a new binding. */
  lemma InvalidationIsTotal(env: Env, db: Tables, token: Bytes, kind: Kind, t: Time, rowAt: Time, identifier: Bytes, secret: Bytes)
    requires db.account.Some?
    ensures var after := InvalidateAuthority(db).db;
            && Bearer(env, after, token, kind, t, rowAt).Err? && ProvenPassword(env, after, identifier, secret).Err?
            && after.evidence.None? && EnabledAccount(after) == Err(Disabled)
            && InvalidateAuthority(db).result.Ok?
  {
  }

  /** A login succeeds if and only if the account is enabled and named by its handle or DID, some password
      row proves the secret, and fewer than 64 sessions are unexpired. It clears the expired ones away, keeps
      the others, and opens one for seven days under a password that proves the secret. */
  lemma LoginExactly(env: Env, db: Tables, identifier: Bytes, secret: Bytes, now: Time, sid: Bytes, jti: Bytes, accessJti: Bytes)
    requires |identifier| <= 512 && |secret| == 48 && SECRET_PREFIX <= secret
    ensures var o := Authenticate(env, db, identifier, secret, now, sid, jti, accessJti);
            && (o.result.Ok? <==>
                  && db.account.Some? && db.account.value.account.enabled
                  && (identifier == db.account.value.account.identity.handle || identifier == db.account.value.account.identity.did)
                  && (exists name :: Proves(env, db.passwords, name, secret))
                  && |set s | s in db.sessions && db.sessions[s].refreshExp > now| < 64)
            && (o.result.Ok? ==>
                  && sid in o.db.sessions && o.db.sessions[sid].refreshExp == now + 604_800 && o.db.sessions[sid].refreshJti == jti
                  && Proves(env, db.passwords, o.db.sessions[sid].passwordName, secret)
                  && (forall s :: s in o.db.sessions && s != sid <==> s in db.sessions && s != sid && db.sessions[s].refreshExp > now)
                  && (forall s :: s in o.db.sessions && s != sid ==> o.db.sessions[s] == db.sessions[s])
                  && o.db == db.(sessions := o.db.sessions))
            && (o.result.Err? ==> o.db == db)
  {
    var live := Unexpired(db.sessions, now);
    assert live.Keys == set s | s in db.sessions && db.sessions[s].refreshExp > now;
    ProvenExactly(env, db, identifier, secret);
  }

  lemma ProvenExactly(env: Env, db: Tables, identifier: Bytes, secret: Bytes)
    requires |identifier| <= 512 && |secret| == 48 && SECRET_PREFIX <= secret
    ensures var r := ProvenPassword(env, db, identifier, secret);
            && (r.Ok? <==>
                  && db.account.Some? && db.account.value.account.enabled
                  && (identifier == db.account.value.account.identity.handle || identifier == db.account.value.account.identity.did)
                  && (exists name :: Proves(env, db.passwords, name, secret)))
            && (r.Ok? ==> Proves(env, db.passwords, r.value, secret))
            && (r.Err? ==> r.error == InvalidCredentials)
  {
    var matched := Matching(env, db.passwords, |db.passwords|, secret);
    if matched.Some? {
      assert Proves(env, db.passwords, matched.value, secret);
    }
  }

  /** Other logins than plausible ones are refused outright. */
  lemma ImplausibleRefused(env: Env, db: Tables, identifier: Bytes, secret: Bytes)
    requires |identifier| > 512 || |secret| != 48 || !(SECRET_PREFIX <= secret)
    ensures ProvenPassword(env, db, identifier, secret) == Err(InvalidCredentials)
  {
  }

  /** A binding succeeds exactly with a valid identity, FID and authority that an account of the store does
      not contradict, or with a usable key if there is none. It enables the account under the authority. */
  lemma BindExactly(env: Env, db: Tables, fid: nat, authority: Bytes, identity: Syntax.Identity, now: Time, key: Bytes)
    ensures var o := BindVerified(env, db, fid, authority, identity, now, key);
            var valid := env.validate(identity) && 0 < fid <= I64_MAX && ValidAuthority(authority);
            && (o.result == Err(BindingConflict) <==>
                  && valid && db.account.Some?
                  && var a := db.account.value.account;
                     a.fid != fid || a.identity != identity || (a.enabled && a.authority != authority))
            && (o.result == Err(Persistence) <==> valid && db.account.None? && !env.validScalar(key))
            && (o.result == Err(InvalidInput) <==>
                  !valid || (db.account.None? && env.validScalar(key) && env.emptyRoot(identity.did, env.revision(now), key).None?))
            && (o.result.Err? ==> o.db == db && o.result.error in {BindingConflict, Persistence, InvalidInput})
            && (o.result.Ok? ==>
                  && o.db == db.(account := o.db.account) && EnabledAccount(o.db) == o.result
                  && o.result.value.fid == fid && o.result.value.authority == authority && o.result.value.identity == identity
                  && (if db.account.Some?
                      then o.db.account.value.repoKey == db.account.value.repoKey
                           && o.result.value == db.account.value.account.(enabled := true, authority := authority)
                      else o.db.account.value.repoKey == key && o.result.value.createdAt == now
                           && o.result.value.repoRevision == env.revision(now)
                           && env.emptyRoot(identity.did, env.revision(now), key) == Some(o.result.value.repoCid)))
  {
  }

  /** A password is issued exactly under a valid, unused name, for an enabled account with room, and the
      reply is the secret that was stored. */
  lemma IssueExactly(env: Env, db: Tables, name: Bytes, now: Time, secret: Bytes, salt: Bytes)
    ensures var o := IssuePassword(env, db, name, now, secret, salt);
            && (o.result.Ok? <==>
                  && 0 < |name| <= 64 && (forall i :: 0 <= i < |name| ==> 0x20 <= name[i] <= 0x7e)
                  && name[0] != 0x20 && name[|name| - 1] != 0x20
                  && db.account.Some? && db.account.value.account.enabled
                  && |db.passwords| < 16 && forall p :: p in db.passwords ==> p.name != name)
            && (o.result.Ok? ==> o.result.value == secret && Proves(env, o.db.passwords, name, secret)
                                 && o.db == db.(passwords := o.db.passwords) && db.passwords <= o.db.passwords
                                 && |o.db.passwords| == |db.passwords| + 1)
            && (o.result.Err? ==> o.db == db)
            && (o.result == Err(LimitReached) <==> ValidName(name) && EnabledAccount(db).Ok? && |db.passwords| >= 16)
  {
    var added := Password(name, salt, env.digest(salt, secret), now);
    var all := db.passwords + [added];
    assert all[|db.passwords|] == added;
    if HasName(db.passwords, name) {
      var i :| 0 <= i < |db.passwords| && db.passwords[i].name == name;
      assert db.passwords[i] in db.passwords;
    }
    ProvesLast(env, db.passwords, added, name, secret);
  }

  /** Evidence is stored exactly for an enabled account and within 32 KiB. */
  lemma EvidenceExactly(db: Tables, document: Bytes)
    ensures var o := SetEvidence(db, document);
            && (o.result.Ok? <==> 0 < |document| <= 32_768 && db.account.Some? && db.account.value.account.enabled)
            && o.db == (if o.result.Ok? then db.(evidence := Some(document)) else db)
  {
  }
}
