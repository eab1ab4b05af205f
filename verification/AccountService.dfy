/** The account core as the object that its actions update in place. */
module AccountService {
  import opened Ordered
  import opened Outcomes
  import opened Account
  import Syntax
  import Chain
  import Settings
  import RateLimit
  import CredentialStore
  import Cr = Credentials
  import Runs = CredentialRuns

  class Service {
    var settings: Settings.AccountSettings
    const store: CredentialStore.Store
    var pending: map<Bytes, Pending>
    var grants: map<Bytes, nat>
    const starts: RateLimit.Limiter
    const logins: RateLimit.Limiter
    var checkedAt: Option<Time>

    ghost function Value(): Core
      reads this, store, starts, logins
    {
      Core(settings, store.tables, pending, grants, starts.times, logins.times, checkedAt)
    }

    ghost predicate Valid()
      reads store
    {
      starts != logins && |store.tables.passwords| <= Cr.MAX_PASSWORDS
    }

    /** A new process over an opened store. */
    constructor (settings: Settings.AccountSettings, store: CredentialStore.Store)
      requires |store.tables.passwords| <= Cr.MAX_PASSWORDS
      ensures Valid() && this.store == store && fresh(starts) && fresh(logins)
      ensures Value() == Core(settings, store.tables, map[], map[], [], [], None)
    {
      this.settings := settings;
      this.store := store;
      pending := map[];
      grants := map[];
      var s := new RateLimit.Limiter();
      var l := new RateLimit.Limiter();
      starts := s;
      logins := l;
      checkedAt := None;
    }

    /** A published configuration; a changed one drops what the old one allowed. */
    method ApplyConfiguration(s: Settings.AccountSettings)
      modifies this
      ensures Value() == if old(settings) == s then old(Value())
                         else old(Value()).(settings := s, pending := map[], grants := map[], checkedAt := None)
    {
      if settings != s {
        settings := s;
        pending := map[];
        grants := map[];
        checkedAt := None;
      }
    }

    method Invalidate(ok: bool) returns (r: Result<(), Failure>)
      requires Valid()
      modifies store
      ensures Valid()
      ensures if !ok then r == Err(Store(Cr.Persistence)) && store.tables == old(store.tables)
              else var o := Cr.InvalidateAuthority(old(store.tables)); store.tables == o.db && r == Lift(o.result)
    {
      if !ok {
        return Err(Store(Cr.Persistence));
      }
      var done := store.InvalidateAuthority();
      r := Lift(done);
    }

    method Keep(env: Env, e: Evidence, ok: bool) returns (r: Result<(), Failure>)
      requires Valid()
      modifies store
      ensures Valid()
      ensures if !ok then r == Err(Store(Cr.Persistence)) && store.tables == old(store.tables)
              else var o := Cr.SetEvidence(old(store.tables), env.show(e)); store.tables == o.db && r == Lift(o.result)
    {
      if !ok {
        return Err(Store(Cr.Persistence));
      }
      var done := store.SetEvidence(env.show(e));
      r := Lift(done);
    }

    method Refuse(e: Chain.AuthError, w: Writes) returns (r: Result<(), Failure>)
      requires Valid()
      modifies this, store
      ensures Valid() && Did(Value(), r) == RefuseAuthority(old(Value()), e, w)
    {
      checkedAt := None;
      if Chain.Revokes(e) {
        var done := Invalidate(w.invalidate);
        if done.Err? {
          return done;
        }
        grants := map[];
      }
      r := Err(Auth(e));
    }

    method Authority(env: Env, now: Time, a: Await<Chain.Answers>, w: Writes) returns (r: Result<(), Failure>)
      requires Valid()
      modifies this, store
      ensures Valid() && Did(Value(), r) == Account.Authority(env, old(Value()), now, a, w)
    {
      if !settings.enabled {
        return Err(Off);
      }
      if checkedAt.Some? && now >= checkedAt.value && now - checkedAt.value < AUTHORITY_CACHE {
        return Ok(());
      }
      if store.tables.account.None? {
        return Err(Store(Cr.NotBound));
      }
      var account := store.tables.account.value.account;
      if !account.enabled {
        return Err(Store(Cr.Disabled));
      }
      if store.tables.evidence.None? {
        return Err(Unverified);
      }
      var read := env.read(store.tables.evidence.value);
      if read.None? {
        return Err(Unverified);
      }
      var evidence := read.value;
      if evidence.identity.fid != account.fid || env.FingerprintOf(evidence.identity) != account.authority {
        return Err(Unverified);
      }
      var client := env.identity(settings);
      if client.None? {
        return Err(Off);
      }
      var parsed := env.parseProof(client.value, evidence.proof);
      var checked: Result<Chain.Verified, Chain.AuthError>;
      match Chain.RecheckLocally(parsed, evidence.identity, now) {
        case Err(e) => checked := Err(e);
        case Ok(_) =>
          if a.TimedOut? {
            return Err(Auth(Chain.Unavailable));
          }
          checked := Chain.Recheck(a.value, parsed, evidence.identity, now);
      }
      match checked {
        case Ok(identity) =>
          evidence := evidence.(identity := identity);
          var kept := Keep(env, evidence, w.evidence);
          if kept.Err? {
            return kept;
          }
          checkedAt := Some(now);
          r := Ok(());
        case Err(e) => r := Refuse(e, w);
      }
    }

    /** The relay is asked only while no proof is stored, and its proof is stored before any check. */
    method Relay(env: Env, id: Bytes, token: Bytes, now: Time, relay: Await<Result<ChannelStatus, Chain.AuthError>>) returns (r: Stage)
      modifies this
      ensures Staged(Value(), r) == PollRelay(env, old(Value()), id, token, now, relay)
    {
      if env.identity(settings).None? {
        return Over(Err(Off));
      }
      if id !in pending {
        return Over(Err(Unverified));
      }
      var p := pending[id];
      if env.hash(token) != p.pollHash {
        return Over(Err(Unverified));
      }
      if p.completion.Some? {
        return Over(Ok(Complete(p.completion.value)));
      }
      if now - p.lastPoll < 2 {
        return Over(Err(Busy));
      }
      p := p.(lastPoll := now);
      if p.proof.None? {
        match relay {
          case TimedOut =>
            pending := pending[id := p];
            return Over(Err(Auth(Chain.Unavailable)));
          case Answered(Err(e)) =>
            pending := pending[id := p];
            return Over(Err(Auth(e)));
          case Answered(Ok(StillPending)) =>
            pending := pending[id := p];
            return Over(Ok(StillWaiting));
          case Answered(Ok(Completed(proof))) =>
            p := p.(proof := Some(proof));
        }
      }
      pending := pending[id := p];
      r := Proceed(p.proof.value);
    }

    method Clear(authority: Bytes, w: Writes) returns (r: Result<(), Failure>)
      requires Valid()
      modifies this, store
      ensures Valid() && Did(Value(), r) == Supersede(old(Value()), authority, w)
    {
      if store.tables.account.Some? && store.tables.account.value.account.authority != authority {
        var done := Invalidate(w.invalidate);
        if done.Err? {
          return done;
        }
        grants := map[];
      }
      r := Ok(());
    }

    method Bind(env: Env, id: Bytes, proof: Chain.Proof, v: Chain.Verified, identity: Syntax.Identity,
                now: Time, bindAt: Time, at: Time, w: Writes, key: Bytes, accountToken: Bytes) returns (r: Result<Reply, Failure>)
      requires Valid() && id in pending
      modifies this, store
      ensures Valid()
      ensures Did(Value(), r) == Admit(env, old(Value()), id, proof, v, identity, now, bindAt, at, w, key, accountToken)
    {
      if !w.bind {
        return Err(Store(Cr.Persistence));
      }
      var bound := store.BindVerified(env.store, v.fid, env.FingerprintOf(v), identity, bindAt, key);
      if bound.Err? {
        return Err(Store(bound.error));
      }
      var account := bound.value;
      var kept := Keep(env, Evidence(v, proof), w.evidence);
      if kept.Err? {
        return Err(kept.error);
      }
      checkedAt := Some(at);
      grants := grants[env.hash(accountToken) := now + GRANT_TTL];
      var done := Completion(accountToken, account.fid, account.identity.handle, account.identity.serviceUrl, now + GRANT_TTL);
      var p := pending[id];
      p := p.(proof := None);
      p := p.(channel := []);
      p := p.(completion := Some(done));
      pending := pending[id := p];
      r := Ok(Complete(done));
    }

    method Verify(env: Env, id: Bytes, proof: Chain.Proof, now: Time, x: Action) returns (r: Result<Reply, Failure>)
      requires Valid() && x.Poll? && id in pending && env.identity(settings).Some?
      modifies this, store
      ensures Valid()
      ensures Did(Value(), r) == PollVerify(env, old(Value()), id, proof, now, x.verifyAt, x.a, x.expiryAt, x.bindAt, x.checkedAt, x.w, x.key, x.accountToken)
    {
      var identity := env.identity(settings).value;
      var check := LoginCheck(env, identity, proof, pending[id].challenge, x.verifyAt, x.a);
      if check.Err? {
        return Err(Auth(check.error));
      }
      var v := check.value;
      if x.expiryAt >= pending[id].challenge.expiresAt {
        pending := pending - {id};
        return Err(Unverified);
      }
      if settings.allowedFid != Some(v.fid) {
        pending := pending - {id};
        return Err(NotAllowed);
      }
      if store.tables.evidence.Some? {
        var previous := env.read(store.tables.evidence.value);
        if previous.None? {
          return Err(Unverified);
        }
        if BehindEvidence(previous.value.identity, v) {
          return Err(Auth(Chain.InvalidChainEvidence));
        }
      }
      var cleared := Clear(env.FingerprintOf(v), x.w);
      if cleared.Err? {
        return Err(cleared.error);
      }
      r := Bind(env, id, proof, v, identity, now, x.bindAt, x.checkedAt, x.w, x.key, x.accountToken);
    }

    method Poll(env: Env, now: Time, x: Action) returns (r: Result<Reply, Failure>)
      requires Valid() && x.Poll?
      modifies this, store
      ensures Valid() && Did(Value(), r) == PollAction(env, old(Value()), now, x)
    {
      var stage := Relay(env, x.pollId, x.token, now, x.status);
      match stage {
        case Over(over) => r := over;
        case Proceed(proof) => r := Verify(env, x.pollId, proof, now, x);
      }
    }

    method Start(env: Env, now: Time, x: Action) returns (r: Result<(), Failure>)
      requires Valid() && x.Start?
      modifies this, starts
      ensures Valid() && Did(Value(), r) == StartAction(env, old(Value()), now, x)
    {
      var ok := starts.Limit(now, 60, 5);
      if !ok || |pending| >= MAX_PENDING {
        return Err(Busy);
      }
      if env.identity(settings).None? {
        return Err(Off);
      }
      match x.relay {
        case TimedOut => r := Err(Auth(Chain.Unavailable));
        case Answered(Err(e)) => r := Err(Auth(e));
        case Answered(Ok(channel)) =>
          var challenge := Challenge(x.nonce, now, now + CHALLENGE_TTL);
          pending := pending[x.id := Pending(env.hash(x.pollToken), challenge, channel, None, 0, None)];
          r := Ok(());
      }
    }

    method Grant(env: Env, token: Bytes, at: Time) returns (ok: bool)
      ensures ok <==> Granted(env, Value(), token, at)
    {
      var key := env.hash(token);
      ok := key in grants && grants[key] > at;
    }

    method Issue(env: Env, x: Action) returns (r: Result<(), Failure>)
      requires Valid() && x.Issue?
      modifies this, store
      ensures Valid() && Did(Value(), r) == IssueAction(env, old(Value()), x)
    {
      var granted := Grant(env, x.grant, x.grantAt);
      if !granted {
        return Err(NoGrant);
      }
      var checked := Authority(env, x.authorityAt, x.a, x.w);
      if checked.Err? {
        return checked;
      }
      granted := Grant(env, x.grant, x.againAt);
      if !granted {
        return Err(NoGrant);
      }
      if !x.w.last {
        return Err(Store(Cr.Persistence));
      }
      var issued := store.IssuePassword(env.store, x.name, x.issueAt, x.secret, x.salt);
      r := match issued case Ok(_) => Ok(()) case Err(e) => Err(Store(e));
    }

    method Passwords(env: Env, x: Action) returns (r: Result<(), Failure>)
      requires Valid() && x.Passwords?
      modifies this, store
      ensures Valid() && Did(Value(), r) == PasswordsAction(env, old(Value()), x)
    {
      var granted := Grant(env, x.grant, x.grantAt);
      if !granted {
        return Err(NoGrant);
      }
      r := Authority(env, x.authorityAt, x.a, x.w);
      if r.Ok? {
        granted := Grant(env, x.grant, x.againAt);
        if !granted {
          return Err(NoGrant);
        }
      }
    }

    method Revoke(env: Env, x: Action) returns (r: Result<(), Failure>)
      requires Valid() && x.Revoke?
      modifies store
      ensures Valid() && Did(Value(), r) == RevokeAction(env, old(Value()), x)
    {
      var granted := Grant(env, x.grant, x.grantAt);
      if !granted {
        return Err(NoGrant);
      }
      if !x.w.last {
        return Err(Store(Cr.Persistence));
      }
      Runs.WithoutNameDrops(store.tables.passwords, x.name);
      var done := store.RevokePassword(x.name);
      r := Lift(done);
    }

    method Login(env: Env, now: Time, x: Action) returns (r: Result<(), Failure>)
      requires Valid() && x.Login?
      modifies this, store, logins
      ensures Valid() && Did(Value(), r) == LoginAction(env, old(Value()), now, x)
    {
      var ok := logins.Limit(now, 60, 20);
      if !ok {
        return Err(Busy);
      }
      var proven := store.VerifyPassword(env.store, x.identifier, x.secret);
      if proven.Err? {
        return Err(Store(proven.error));
      }
      var checked := Authority(env, x.authorityAt, x.a, x.w);
      if checked.Err? {
        return checked;
      }
      if !x.w.last {
        return Err(Store(Cr.Persistence));
      }
      var session := store.Authenticate(env.store, x.identifier, x.secret, x.loginAt, x.sid, x.jti, x.accessJti);
      r := match session case Ok(_) => Ok(()) case Err(e) => Err(Store(e));
    }

    method Session(env: Env, x: Action) returns (r: Result<(), Failure>)
      requires Valid() && x.Session?
      modifies this, store
      ensures Valid() && Did(Value(), r) == SessionAction(env, old(Value()), x)
    {
      var claims := store.ValidateBearer(env.store, x.access, Cr.Access, x.readAt, x.rowAt);
      if claims.Err? {
        return Err(Store(claims.error));
      }
      r := Authority(env, x.authorityAt, x.a, x.w);
    }

    method Refresh(env: Env, x: Action) returns (r: Result<(), Failure>)
      requires Valid() && x.Refresh?
      modifies this, store
      ensures Valid() && Did(Value(), r) == RefreshAction(env, old(Value()), x)
    {
      var claims := store.ValidateBearer(env.store, x.refresh, Cr.Kind.Refresh, x.readAt, x.readAt);
      if claims.Err? {
        return Err(Store(claims.error));
      }
      var checked := Authority(env, x.authorityAt, x.a, x.w);
      if checked.Err? {
        return checked;
      }
      if !x.w.last {
        return Err(Store(Cr.Persistence));
      }
      var session := store.RefreshSession(env.store, x.refresh, x.rotateAt, x.jti, x.accessJti);
      r := match session case Ok(_) => Ok(()) case Err(e) => Err(Store(e));
    }

    method Logout(env: Env, x: Action) returns (r: Result<(), Failure>)
      requires Valid() && x.Logout?
      modifies store
      ensures Valid() && Did(Value(), r) == LogoutAction(env, old(Value()), x)
    {
      if !x.w.last {
        return Err(Store(Cr.Persistence));
      }
      var done := store.DeleteSession(env.store, x.refresh, x.logoutAt);
      r := Lift(done);
    }

    /** One accepted request. */
    method Execute(env: Env, now: Time, x: Action) returns (r: Result<(), Failure>)
      requires Valid()
      modifies this, store, starts, logins
      ensures Valid() && Did(Value(), r) == Act(env, old(Value()), now, x)
    {
      if !settings.enabled {
        return Err(Off);
      }
      pending := map id | id in pending && pending[id].challenge.expiresAt > now :: pending[id];
      grants := map g | g in grants && grants[g] > now :: grants[g];
      r := Dispatch(env, now, x);
    }

    method Dispatch(env: Env, now: Time, x: Action) returns (r: Result<(), Failure>)
      requires Valid()
      modifies this, store, starts, logins
      ensures Valid() && Did(Value(), r) == ActOn(env, old(Value()), now, x)
    {
      match x {
        case Start(_, _, _, _) => r := Start(env, now, x);
        case Poll(_, _, _, _, _, _, _, _, _, _, _) =>
          var reply := Poll(env, now, x);
          r := match reply case Ok(_) => Ok(()) case Err(e) => Err(e);
        case Issue(_, _, _, _, _, _, _, _, _, _) => r := Issue(env, x);
        case Passwords(_, _, _, _, _, _) => r := Passwords(env, x);
        case Revoke(_, _, _, _) => r := Revoke(env, x);
        case Login(_, _, _, _, _, _, _, _, _) => r := Login(env, now, x);
        case Session(_, _, _, _, _, _) => r := Session(env, x);
        case Refresh(_, _, _, _, _, _, _, _) => r := Refresh(env, x);
        case Logout(_, _, _) => r := Logout(env, x);
        case Describe =>
          r := if env.identity(settings).None? then Err(Off) else Ok(());
        case DidDocument =>
          r := if store.tables.account.None? then Err(Store(Cr.NotBound)) else Ok(());
      }
    }
  }
}
