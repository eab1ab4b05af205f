/** The credential store as an object whose methods change its tables in transactions. */
module CredentialStore {
  import opened Ordered
  import opened Outcomes
  import opened C = Credentials
  import Syntax

  /** One open handle. A transaction works on a copy of the tables that only a commit writes back. */
  class Store {
    var tables: Tables

    constructor ()
      ensures tables == FRESH
    {
      tables := FRESH;
    }

    method SetEvidence(document: Bytes) returns (r: Result<(), Error>)
      modifies this
      ensures Outcome(tables, r) == C.SetEvidence(old(tables), document)
    {
      if |document| == 0 || |document| > MAX_EVIDENCE {
        return Err(InvalidInput);
      }
      var account := EnabledAccount(tables);
      if account.Err? {
        return Err(account.error);
      }
      tables := tables.(evidence := Some(document));
      r := Ok(());
    }

    method BindVerified(env: Env, fid: nat, authority: Bytes, identity: Syntax.Identity, now: Time, key: Bytes)
      returns (r: Result<Account, Error>)
      modifies this
      ensures Outcome(tables, r) == C.BindVerified(env, old(tables), fid, authority, identity, now, key)
    {
      if !env.validate(identity) {
        return Err(InvalidInput);
      }
      if fid == 0 || fid > I64_MAX || !ValidAuthority(authority) {
        return Err(InvalidInput);
      }
      if tables.account.Some? {
        var account := tables.account.value.account;
        if account.fid != fid || account.identity != identity || (account.enabled && account.authority != authority) {
          return Err(BindingConflict);
        }
        account := account.(enabled := true);
        account := account.(authority := authority);
        tables := tables.(account := Some(AccountRow(account, tables.account.value.repoKey)));
        return Ok(account);
      }
      if !env.validScalar(key) {
        return Err(Persistence);
      }
      var revision := env.revision(now);
      var root := env.emptyRoot(identity.did, revision, key);
      if root.None? {
        return Err(InvalidInput);
      }
      var account := Account(fid, authority, identity, true, now, revision, root.value);
      tables := tables.(account := Some(AccountRow(account, key)));
      r := Ok(account);
    }

    method InvalidateAuthority() returns (r: Result<(), Error>)
      modifies this
      ensures Outcome(tables, r) == C.InvalidateAuthority(old(tables))
    {
      var tx := tables;
      if tx.account.None? {
        return Err(NotBound);
      }
      var row := tx.account.value;
      tx := tx.(account := Some(row.(account := row.account.(enabled := false))));
      tx := tx.(passwords := [], sessions := map[]);
      tx := tx.(evidence := None);
      tables := tx;
      r := Ok(());
    }

    method IssuePassword(env: Env, name: Bytes, now: Time, secret: Bytes, salt: Bytes) returns (r: Result<Bytes, Error>)
      modifies this
      ensures Outcome(tables, r) == C.IssuePassword(env, old(tables), name, now, secret, salt)
    {
      if !ValidName(name) {
        return Err(InvalidInput);
      }
      var account := EnabledAccount(tables);
      if account.Err? {
        return Err(account.error);
      }
      if |tables.passwords| >= MAX_PASSWORDS {
        return Err(LimitReached);
      }
      if exists i :: 0 <= i < |tables.passwords| && tables.passwords[i].name == name {
        return Err(InvalidInput);
      }
      tables := tables.(passwords := tables.passwords + [Password(name, salt, env.digest(salt, secret), now)]);
      r := Ok(secret);
    }

    method RevokePassword(name: Bytes) returns (r: Result<(), Error>)
      modifies this
      ensures Outcome(tables, r) == C.RevokePassword(old(tables), name)
    {
      if !ValidName(name) {
        return Err(InvalidInput);
      }
      tables := tables.(passwords := WithoutName(tables.passwords, name),
                        sessions := map sid | sid in tables.sessions && tables.sessions[sid].passwordName != name :: tables.sessions[sid]);
      r := Ok(());
    }

    /** The scan reads at most sixteen rows; while no more exist it misses none. */
    method VerifyPassword(env: Env, identifier: Bytes, secret: Bytes) returns (r: Result<Bytes, Error>)
      requires |tables.passwords| <= MAX_PASSWORDS
      ensures r == ProvenPassword(env, tables, identifier, secret)
    {
      if !PlausibleLogin(identifier, secret) {
        return Err(InvalidCredentials);
      }
      var account := EnabledAccount(tables);
      if account.Err? {
        return Err(InvalidCredentials);
      }
      var rows := tables.passwords[..Min(16, |tables.passwords|)];
      var matched: Option<Bytes> := None;
      for i := 0 to |rows|
        invariant matched == Matching(env, tables.passwords, i, secret)
      {
        if env.digest(rows[i].salt, secret) == rows[i].verifier {
          matched := Some(rows[i].name);
        }
      }
      if identifier != account.value.identity.handle && identifier != account.value.identity.did {
        return Err(InvalidCredentials);
      }
      r := if matched.Some? then Ok(matched.value) else Err(InvalidCredentials);
    }

    method Authenticate(env: Env, identifier: Bytes, secret: Bytes, now: Time, sid: Bytes, jti: Bytes, accessJti: Bytes)
      returns (r: Result<Session, Error>)
      requires |tables.passwords| <= MAX_PASSWORDS
      modifies this
      ensures Outcome(tables, r) == C.Authenticate(env, old(tables), identifier, secret, now, sid, jti, accessJti)
    {
      var name := VerifyPassword(env, identifier, secret);
      if name.Err? {
        return Err(name.error);
      }
      var tx := tables;
      tx := tx.(sessions := Unexpired(tx.sessions, now));
      if |tx.sessions| >= MAX_SESSIONS {
        return Err(LimitReached);
      }
      var expires := now + REFRESH_SECONDS;
      var session := CreateSession(env, tx.account.value.account, sid, jti, accessJti, now, expires);
      tx := tx.(sessions := tx.sessions[sid := Row(name.value, jti, expires)]);
      tables := tx;
      r := Ok(session);
    }

    method ValidateBearer(env: Env, token: Bytes, kind: Kind, now: Time, rowAt: Time) returns (r: Result<Claims, Error>)
      ensures r == Bearer(env, tables, token, kind, now, rowAt)
    {
      var account := EnabledAccount(tables);
      if account.Err? {
        return Err(InvalidToken);
      }
      var claims := VerifyToken(env, token, account.value, kind, now);
      if claims.Err? {
        return Err(claims.error);
      }
      var c := claims.value;
      if c.sid !in tables.sessions {
        return Err(InvalidToken);
      }
      var row := tables.sessions[c.sid];
      if row.refreshExp <= rowAt || (kind.Refresh? && (row.refreshJti != c.jti || row.refreshExp != c.exp)) {
        return Err(InvalidToken);
      }
      r := Ok(c);
    }

    method RefreshSession(env: Env, token: Bytes, now: Time, jti: Bytes, accessJti: Bytes) returns (r: Result<Session, Error>)
      modifies this
      ensures Outcome(tables, r) == C.RefreshSession(env, old(tables), token, now, jti, accessJti)
    {
      var claims := ValidateBearer(env, token, Refresh, now, now);
      if claims.Err? {
        return Err(claims.error);
      }
      var c := claims.value;
      var tx := tables;
      var session := CreateSession(env, tx.account.value.account, c.sid, jti, accessJti, now, c.exp);
      if !(c.sid in tx.sessions && tx.sessions[c.sid].refreshJti == c.jti) {
        return Err(InvalidToken);
      }
      tx := tx.(sessions := tx.sessions[c.sid := tx.sessions[c.sid].(refreshJti := jti)]);
      tables := tx;
      r := Ok(session);
    }

    method DeleteSession(env: Env, token: Bytes, now: Time) returns (r: Result<(), Error>)
      modifies this
      ensures Outcome(tables, r) == C.DeleteSession(env, old(tables), token, now)
    {
      var claims := ValidateBearer(env, token, Refresh, now, now);
      if claims.Err? {
        return Err(claims.error);
      }
      tables := tables.(sessions := tables.sessions - {claims.value.sid});
      r := Ok(());
    }
  }
}
