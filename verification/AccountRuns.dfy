/** What every action of the account service keeps, wherever it is cut off. */
module AccountRuns {
  import opened Ordered
  import opened Outcomes
  import opened Account
  import Syntax
  import Chain
  import Settings
  import RateLimit
  import Cr = Credentials
  import Runs = CredentialRuns

  /** The settings name the bound account. */
  predicate Names(env: Env, s: Settings.AccountSettings, db: Cr.Tables) {
    db.account.Some? ==>
      && s.allowedFid == Some(db.account.value.account.fid)
      && env.identity(s) == Some(db.account.value.account.identity)
  }

  // ----- the invariant -----

  predicate HasEvidence(db: Cr.Tables) {
    db.evidence.Some?
  }

  /** Stored evidence is readable, proves what it says for the configured identity, and is the bound
      account's. */
  ghost predicate EvidenceFits(env: Env, s: Settings.AccountSettings, db: Cr.Tables) {
    db.evidence.Some? ==>
      && db.account.Some? && env.identity(s).Some? && env.read(db.evidence.value).Some?
      && var e := env.read(db.evidence.value).value;
         && Chain.EvidenceSound(env.parseProof(env.identity(s).value, e.proof), e.identity)
         && e.identity.fid == db.account.value.account.fid
         && env.FingerprintOf(e.identity) == db.account.value.account.authority
  }

  ghost predicate CoreSound(env: Env, c: Core) {
    && Names(env, c.settings, c.db) && Runs.TablesSound(env.store, c.db) && EvidenceFits(env, c.settings, c.db)
    && |c.pending| <= MAX_PENDING
    && (c.grants != map[] ==> Cr.EnabledAccount(c.db).Ok? && HasEvidence(c.db))
    && (c.db.passwords != [] ==> HasEvidence(c.db))
  }

  // ----- what one authority check may do -----

  /** Nothing but the cache, or new evidence that advances, or a revocation earned by such a block. */
  ghost predicate AuthorityCase(env: Env, c: Core, d: Core, a: Await<Chain.Answers>, now: Time) {
    && d == c.(db := d.db, grants := d.grants, checkedAt := d.checkedAt)
    && (|| (d.db == c.db && d.grants == c.grants)
        || (c.db.evidence.Some? && a.Answered? && env.read(c.db.evidence.value).Some? &&
            var e := env.read(c.db.evidence.value).value;
            && Chain.Finalized(a.value, now).Ok?
            && Chain.Advances(e.identity, Chain.Finalized(a.value, now).value.number, Chain.Finalized(a.value, now).value.hash)
            && (|| (&& d.grants == c.grants && Cr.EnabledAccount(c.db).Ok?
                    && exists v :: && d.db == c.db.(evidence := Some(env.show(e.(identity := v))))
                                   && Chain.VerifyAuthority(a.value, Chain.Parsed(e.identity.fid, e.identity.address), now, Some(e.identity)) == Ok(v))
                || (d.grants == map[] && d.db == Cr.InvalidateAuthority(c.db).db && c.db.account.Some?))))
  }

  lemma AuthorityDoes(env: Env, c: Core, now: Time, a: Await<Chain.Answers>, w: Writes)
    requires EvidenceFits(env, c.settings, c.db)
    ensures AuthorityCase(env, c, Authority(env, c, now, a, w).core, a, now)
  {
    var d := Authority(env, c, now, a, w);
    if c.settings.enabled && !Cached(c, now) && OwnEvidence(env, c).Ok? && env.identity(c.settings).Some? {
      var e := OwnEvidence(env, c).value;
      var parsed := env.parseProof(env.identity(c.settings).value, e.proof);
      if Chain.RecheckLocally(parsed, e.identity, now).Ok? && a.Answered? {
        var r := Chain.Recheck(a.value, parsed, e.identity, now);
        if r.Ok? {
          Chain.VerifiedEvidence(a.value, parsed.value, now, Some(e.identity));
          assert r == Chain.VerifyAuthority(a.value, Chain.Parsed(e.identity.fid, e.identity.address), now, Some(e.identity));
        } else if Chain.Revokes(r.error) {
          Chain.RevocationNeedsAdvance(a.value, parsed, e.identity, now);
        }
      }
    }
  }

  lemma InvalidatedSound(env: Env, c: Core, d: Core)
    requires CoreSound(env, c)
    requires d.settings == c.settings && d.pending == c.pending && d.grants == map[]
    requires d.db == Cr.InvalidateAuthority(c.db).db
    ensures CoreSound(env, d)
  {
    Runs.TablesStaySound(env.store, c.db, Runs.Invalidate);
  }

  lemma RecordedSound(env: Env, c: Core, d: Core, e: Evidence)
    requires env.Lawful() && CoreSound(env, c) && Cr.EnabledAccount(c.db).Ok? && env.identity(c.settings).Some?
    requires d.settings == c.settings && d.pending == c.pending && d.grants == c.grants
    requires d.db == c.db.(evidence := Some(env.show(e)))
    requires Chain.EvidenceSound(env.parseProof(env.identity(c.settings).value, e.proof), e.identity)
    requires e.identity.fid == c.db.account.value.account.fid && env.FingerprintOf(e.identity) == c.db.account.value.account.authority
    ensures CoreSound(env, d)
  {
    assert env.read(env.show(e)) == Some(e);
  }

  lemma AuthorityKeeps(env: Env, c: Core, now: Time, a: Await<Chain.Answers>, w: Writes)
    requires env.Lawful() && CoreSound(env, c)
    ensures CoreSound(env, Authority(env, c, now, a, w).core)
  {
    var d := Authority(env, c, now, a, w).core;
    AuthorityDoes(env, c, now, a, w);
    if d.db == c.db && d.grants == c.grants {
    } else {
      var e := env.read(c.db.evidence.value).value;
      if d.db == Cr.InvalidateAuthority(c.db).db && d.grants == map[] {
        InvalidatedSound(env, c, d);
      } else {
        var v :| d.db == c.db.(evidence := Some(env.show(e.(identity := v))))
              && Chain.VerifyAuthority(a.value, Chain.Parsed(e.identity.fid, e.identity.address), now, Some(e.identity)) == Ok(v);
        Chain.VerifiedEvidence(a.value, Chain.Parsed(e.identity.fid, e.identity.address), now, Some(e.identity));
        RecordedSound(env, c, d, e.(identity := v));
      }
    }
  }

  // ----- what a poll keeps -----

  lemma SameSize(m: map<Bytes, Pending>, id: Bytes, p: Pending)
    requires id in m
    ensures |m[id := p]| == |m|
  {
    assert m[id := p].Keys == m.Keys;
  }

  lemma RelayLeaves(env: Env, c: Core, id: Bytes, token: Bytes, now: Time, relay: Await<Result<ChannelStatus, Chain.AuthError>>)
    ensures var s := PollRelay(env, c, id, token, now, relay);
            && s.core == c.(pending := s.core.pending)
            && (s.stage.Proceed? ==> id in s.core.pending && env.identity(c.settings).Some?)
  {
  }

  lemma RelayKeeps(env: Env, c: Core, id: Bytes, token: Bytes, now: Time, relay: Await<Result<ChannelStatus, Chain.AuthError>>)
    requires CoreSound(env, c)
    ensures var s := PollRelay(env, c, id, token, now, relay);
            && CoreSound(env, s.core) && s.core == c.(pending := s.core.pending)
            && (s.stage.Proceed? ==> id in s.core.pending && env.identity(c.settings).Some?)
  {
    var d := PollRelay(env, c, id, token, now, relay).core;
    RelayLeaves(env, c, id, token, now, relay);
    RelaySameLogins(env, c, id, token, now, relay);
    FewerKeys(c.pending, d.pending);
    PendingSound(env, c, d);
  }

  lemma RelaySameLogins(env: Env, c: Core, id: Bytes, token: Bytes, now: Time, relay: Await<Result<ChannelStatus, Chain.AuthError>>)
    ensures PollRelay(env, c, id, token, now, relay).core.pending.Keys == c.pending.Keys
  {
  }

  lemma PendingSound(env: Env, c: Core, d: Core)
    requires CoreSound(env, c) && d == c.(pending := d.pending) && |d.pending| <= |c.pending|
    ensures CoreSound(env, d)
  {
  }

  lemma SupersedeKeeps(env: Env, c: Core, authority: Bytes, w: Writes)
    requires CoreSound(env, c)
    ensures var d := Supersede(c, authority, w);
            && CoreSound(env, d.core) && d.core == c.(db := d.core.db, grants := d.core.grants)
            && ((d.core.db == c.db && d.core.grants == c.grants)
                || (d.core.grants == map[] && c.db.account.Some? && d.core.db == Cr.InvalidateAuthority(c.db).db))
            && (d.result.Ok? ==> d.core.db.account.None? || d.core.db.account.value.account.authority == authority
                                 || Cr.EnabledAccount(d.core.db).Err?)
  {
    var d := Supersede(c, authority, w).core;
    if d.db != c.db || d.grants != c.grants {
      InvalidatedSound(env, c, d);
    }
  }

  /** Binding a login that the settings allow, over tables whose authority is the login's or gone. */
  lemma BoundSound(env: Env, c: Core, v: Chain.Verified, identity: Syntax.Identity, bindAt: Time, key: Bytes)
    requires CoreSound(env, c) && env.identity(c.settings) == Some(identity) && c.settings.allowedFid == Some(v.fid)
    requires c.db.account.None? || c.db.account.value.account.authority == env.FingerprintOf(v) || Cr.EnabledAccount(c.db).Err?
    requires Cr.BindVerified(env.store, c.db, v.fid, env.FingerprintOf(v), identity, bindAt, key).result.Ok?
    ensures var bound := Cr.BindVerified(env.store, c.db, v.fid, env.FingerprintOf(v), identity, bindAt, key);
            && CoreSound(env, c.(db := bound.db)) && Cr.EnabledAccount(bound.db) == bound.result
            && bound.result.value.fid == v.fid && bound.result.value.authority == env.FingerprintOf(v)
  {
    Runs.TablesStaySound(env.store, c.db, Runs.Bind(v.fid, env.FingerprintOf(v), identity, bindAt, key));
  }

  lemma AdmitKeeps(env: Env, c: Core, id: Bytes, proof: Chain.Proof, v: Chain.Verified, identity: Syntax.Identity,
                   now: Time, bindAt: Time, checkedAt: Time, w: Writes, key: Bytes, accountToken: Bytes)
    requires env.Lawful() && CoreSound(env, c) && id in c.pending
    requires env.identity(c.settings) == Some(identity) && c.settings.allowedFid == Some(v.fid)
    requires c.db.account.None? || c.db.account.value.account.authority == env.FingerprintOf(v) || Cr.EnabledAccount(c.db).Err?
    requires Chain.EvidenceSound(env.parseProof(identity, proof), v)
    ensures CoreSound(env, Admit(env, c, id, proof, v, identity, now, bindAt, checkedAt, w, key, accountToken).core)
  {
    var d := Admit(env, c, id, proof, v, identity, now, bindAt, checkedAt, w, key, accountToken);
    var bound := Cr.BindVerified(env.store, c.db, v.fid, env.FingerprintOf(v), identity, bindAt, key);
    if w.bind && bound.result.Ok? {
      BoundSound(env, c, v, identity, bindAt, key);
      var e := Evidence(v, proof);
      var c1 := c.(db := bound.db);
      if w.evidence && Cr.SetEvidence(c1.db, env.show(e)).result.Ok? {
        var c2 := c1.(db := Cr.SetEvidence(c1.db, env.show(e)).db);
        RecordedSound(env, c1, c2, e);
        SameSize(c.pending, id, d.core.pending[id]);
      }
    }
  }

  /** What a poll with a proof may come to. */
  lemma VerifyDoes(env: Env, c: Core, id: Bytes, proof: Chain.Proof, now: Time, verifyAt: Time, a: Await<Chain.Answers>,
                   expiryAt: Time, bindAt: Time, checkedAt: Time, w: Writes, key: Bytes, accountToken: Bytes)
    requires id in c.pending && env.identity(c.settings).Some?
    ensures var d := PollVerify(env, c, id, proof, now, verifyAt, a, expiryAt, bindAt, checkedAt, w, key, accountToken).core;
            var identity := env.identity(c.settings).value;
            var check := LoginCheck(env, identity, proof, c.pending[id].challenge, verifyAt, a);
            || d == c || d == c.(pending := c.pending - {id})
            || (&& check.Ok? && c.settings.allowedFid == Some(check.value.fid)
                && (c.db.evidence.Some? ==> env.read(c.db.evidence.value).Some?
                                            && !BehindEvidence(env.read(c.db.evidence.value).value.identity, check.value))
                && var cleared := Supersede(c, env.FingerprintOf(check.value), w);
                   d == if cleared.result.Err? then cleared.core
                        else Admit(env, cleared.core, id, proof, check.value, identity, now, bindAt, checkedAt, w, key, accountToken).core)
  {
  }

  /** A login that checks out leaves sound evidence, read from the block the node reported. */
  lemma CheckedLogin(env: Env, id: Syntax.Identity, proof: Chain.Proof, ch: Challenge, now: Time, a: Await<Chain.Answers>)
    requires env.Lawful() && LoginCheck(env, id, proof, ch, now, a).Ok?
    ensures var v := LoginCheck(env, id, proof, ch, now, a).value;
            && Chain.EvidenceSound(env.parseProof(id, proof), v)
            && a.Answered? && Chain.Finalized(a.value, now) == Ok(Chain.Block(v.checkedBlock, v.blockHash))
  {
    Chain.VerifiedEvidence(a.value, env.parseLogin(id, proof, ch, now).value, now, None);
  }

  lemma ForgetKeeps(env: Env, c: Core, id: Bytes)
    requires CoreSound(env, c)
    ensures CoreSound(env, c.(pending := c.pending - {id}))
  {
    FewerKeys(c.pending, c.pending - {id});
  }

  lemma VerifyKeeps(env: Env, c: Core, id: Bytes, proof: Chain.Proof, now: Time, verifyAt: Time, a: Await<Chain.Answers>,
                    expiryAt: Time, bindAt: Time, checkedAt: Time, w: Writes, key: Bytes, accountToken: Bytes)
    requires env.Lawful() && CoreSound(env, c) && id in c.pending && env.identity(c.settings).Some?
    ensures CoreSound(env, PollVerify(env, c, id, proof, now, verifyAt, a, expiryAt, bindAt, checkedAt, w, key, accountToken).core)
  {
    VerifyDoes(env, c, id, proof, now, verifyAt, a, expiryAt, bindAt, checkedAt, w, key, accountToken);
    ForgetKeeps(env, c, id);
    var identity := env.identity(c.settings).value;
    var check := LoginCheck(env, identity, proof, c.pending[id].challenge, verifyAt, a);
    if check.Ok? {
      CheckedLogin(env, identity, proof, c.pending[id].challenge, verifyAt, a);
      SupersedeKeeps(env, c, env.FingerprintOf(check.value), w);
      var cleared := Supersede(c, env.FingerprintOf(check.value), w);
      if cleared.result.Ok? && c.settings.allowedFid == Some(check.value.fid) {
        AdmitKeeps(env, cleared.core, id, proof, check.value, identity, now, bindAt, checkedAt, w, key, accountToken);
      }
    }
  }

  // ----- what an action keeps -----

  lemma PrunedKeeps(env: Env, c: Core, now: Time)
    requires CoreSound(env, c)
    ensures CoreSound(env, Pruned(c, now))
  {
    FewerKeys(c.pending, Pruned(c, now).pending);
    if c.grants == map[] {
      assert Pruned(c, now).grants == map[];
    }
  }

  /** Password and session operations leave account and evidence alone. */
  lemma TableStepLeaves(env: Cr.Env, db: Cr.Tables, step: Runs.Step)
    requires step.Issue? || step.Revoke? || step.Login? || step.Rotate? || step.Logout?
    ensures var after := Runs.TableStep(env, db, step).db;
            && after.account == db.account && after.evidence == db.evidence
            && (after.passwords != [] ==> db.passwords != [] || step.Issue?)
            && (!step.Revoke? ==> db.passwords <= after.passwords)
  {
    if step.Revoke? {
      Runs.WithoutNameDrops(db.passwords, step.name);
    }
  }

  lemma TableStepKeeps(env: Env, c: Core, step: Runs.Step)
    requires CoreSound(env, c) && (step.Issue? || step.Revoke? || step.Login? || step.Rotate? || step.Logout?)
    requires step.Issue? ==> HasEvidence(c.db)
    ensures CoreSound(env, c.(db := Runs.TableStep(env.store, c.db, step).db))
  {
    Runs.TablesStaySound(env.store, c.db, step);
    TableStepLeaves(env.store, c.db, step);
    SameAccountSound(env, c, c.(db := Runs.TableStep(env.store, c.db, step).db));
  }

  lemma SameAccountSound(env: Env, c: Core, d: Core)
    requires CoreSound(env, c) && d == c.(db := d.db) && Runs.TablesSound(env.store, d.db)
    requires d.db.account == c.db.account && d.db.evidence == c.db.evidence
    requires d.db.passwords != [] ==> HasEvidence(d.db)
    ensures CoreSound(env, d)
  {
  }

  lemma OneMore(m: map<Bytes, Pending>, id: Bytes, p: Pending)
    ensures |m[id := p]| <= |m| + 1
  {
    assert m[id := p].Keys == m.Keys + {id};
    assert |m.Keys + {id}| == |m.Keys| + |{id} - m.Keys|;
    assert {id} - m.Keys <= {id};
    assert {id} - m.Keys == {} || {id} - m.Keys == {id};
  }

  lemma StartDoes(env: Env, c: Core, now: Time, x: Action)
    requires x.Start?
    ensures var d := StartAction(env, c, now, x).core;
            && d == c.(startTimes := d.startTimes, pending := d.pending)
            && (d.pending == c.pending || (|c.pending| < MAX_PENDING && x.id in d.pending && d.pending == c.pending[x.id := d.pending[x.id]]))
  {
  }

  lemma MoreLoginsSound(env: Env, c: Core, d: Core)
    requires CoreSound(env, c) && d == c.(startTimes := d.startTimes, pending := d.pending) && |d.pending| <= MAX_PENDING
    ensures CoreSound(env, d)
  {
  }

  lemma StartKeeps(env: Env, c: Core, now: Time, x: Action)
    requires CoreSound(env, c) && x.Start?
    ensures CoreSound(env, StartAction(env, c, now, x).core)
  {
    var d := StartAction(env, c, now, x).core;
    StartDoes(env, c, now, x);
    if d.pending != c.pending {
      OneMore(c.pending, x.id, d.pending[x.id]);
    }
    MoreLoginsSound(env, c, d);
  }

  lemma PollKeeps(env: Env, c: Core, now: Time, x: Action)
    requires env.Lawful() && CoreSound(env, c) && x.Poll?
    ensures CoreSound(env, PollAction(env, c, now, x).core)
  {
    RelayKeeps(env, c, x.pollId, x.token, now, x.status);
    var s := PollRelay(env, c, x.pollId, x.token, now, x.status);
    if s.stage.Proceed? {
      VerifyKeeps(env, s.core, x.pollId, s.stage.proof, now, x.verifyAt, x.a, x.expiryAt, x.bindAt, x.checkedAt, x.w, x.key, x.accountToken);
    }
  }

  function IssueStep(x: Action): Runs.Step
    requires x.Issue?
  {
    Runs.Issue(x.name, x.issueAt, x.secret, x.salt)
  }

  /** A password is issued only if the caller's own grant is live before and after the check. */
  lemma IssueDoes(env: Env, c: Core, x: Action)
    requires x.Issue?
    ensures var checked := Authority(env, c, x.authorityAt, x.a, x.w).core;
            var d := IssueAction(env, c, x).core;
            d == c || d == checked || (Granted(env, c, x.grant, x.grantAt) && Granted(env, checked, x.grant, x.againAt) && d == checked.(db := Runs.TableStep(env.store, checked.db, IssueStep(x)).db))
  {
  }

  lemma IssueKeeps(env: Env, c: Core, x: Action)
    requires env.Lawful() && CoreSound(env, c) && x.Issue?
    ensures CoreSound(env, IssueAction(env, c, x).core)
  {
    AuthorityKeeps(env, c, x.authorityAt, x.a, x.w);
    IssueDoes(env, c, x);
    var d := Authority(env, c, x.authorityAt, x.a, x.w).core;
    if d.grants != map[] {
      TableStepKeeps(env, d, IssueStep(x));
    }
  }

  lemma RevokeDoes(env: Env, c: Core, x: Action)
    requires x.Revoke?
    ensures var d := RevokeAction(env, c, x).core;
            d == c || d == c.(db := Runs.TableStep(env.store, c.db, Runs.Revoke(x.name)).db)
  {
  }

  lemma RevokeKeeps(env: Env, c: Core, x: Action)
    requires CoreSound(env, c) && x.Revoke?
    ensures CoreSound(env, RevokeAction(env, c, x).core)
  {
    RevokeDoes(env, c, x);
    TableStepKeeps(env, c, Runs.Revoke(x.name));
  }

  lemma LimitedSound(env: Env, c: Core, d: Core)
    requires CoreSound(env, c) && d == c.(passwordTimes := d.passwordTimes)
    ensures CoreSound(env, d)
  {
  }

  function LoginStep(x: Action): Runs.Step
    requires x.Login?
  {
    Runs.Login(x.identifier, x.secret, x.loginAt, x.sid, x.jti, x.accessJti)
  }

  lemma LoginDoes(env: Env, c: Core, now: Time, x: Action)
    requires x.Login?
    ensures var limited := c.(passwordTimes := RateLimit.AfterLimit(c.passwordTimes, now, 60, 20));
            var checked := Authority(env, limited, x.authorityAt, x.a, x.w).core;
            var d := LoginAction(env, c, now, x).core;
            d == limited || d == checked || d == checked.(db := Runs.TableStep(env.store, checked.db, LoginStep(x)).db)
  {
  }

  lemma LoginKeeps(env: Env, c: Core, now: Time, x: Action)
    requires env.Lawful() && CoreSound(env, c) && x.Login?
    ensures CoreSound(env, LoginAction(env, c, now, x).core)
  {
    var limited := c.(passwordTimes := RateLimit.AfterLimit(c.passwordTimes, now, 60, 20));
    LimitedSound(env, c, limited);
    AuthorityKeeps(env, limited, x.authorityAt, x.a, x.w);
    TableStepKeeps(env, Authority(env, limited, x.authorityAt, x.a, x.w).core, LoginStep(x));
    LoginDoes(env, c, now, x);
  }

  function RotateStep(x: Action): Runs.Step
    requires x.Refresh?
  {
    Runs.Rotate(x.refresh, x.rotateAt, x.jti, x.accessJti)
  }

  lemma RefreshDoes(env: Env, c: Core, x: Action)
    requires x.Refresh?
    ensures var checked := Authority(env, c, x.authorityAt, x.a, x.w).core;
            var d := RefreshAction(env, c, x).core;
            d == c || d == checked || d == checked.(db := Runs.TableStep(env.store, checked.db, RotateStep(x)).db)
  {
  }

  lemma RefreshKeeps(env: Env, c: Core, x: Action)
    requires env.Lawful() && CoreSound(env, c) && x.Refresh?
    ensures CoreSound(env, RefreshAction(env, c, x).core)
  {
    AuthorityKeeps(env, c, x.authorityAt, x.a, x.w);
    TableStepKeeps(env, Authority(env, c, x.authorityAt, x.a, x.w).core, RotateStep(x));
    RefreshDoes(env, c, x);
  }

  lemma LogoutDoes(env: Env, c: Core, x: Action)
    requires x.Logout?
    ensures var d := LogoutAction(env, c, x).core;
            d == c || d == c.(db := Runs.TableStep(env.store, c.db, Runs.Logout(x.refresh, x.logoutAt)).db)
  {
  }

  lemma LogoutKeeps(env: Env, c: Core, x: Action)
    requires CoreSound(env, c) && x.Logout?
    ensures CoreSound(env, LogoutAction(env, c, x).core)
  {
    LogoutDoes(env, c, x);
    TableStepKeeps(env, c, Runs.Logout(x.refresh, x.logoutAt));
  }

  lemma OnKeeps(env: Env, c: Core, now: Time, x: Action)
    requires env.Lawful() && CoreSound(env, c)
    ensures CoreSound(env, ActOn(env, c, now, x).core)
  {
    match x {
      case Start(_, _, _, _) => StartKeeps(env, c, now, x);
      case Poll(_, _, _, _, _, _, _, _, _, _, _) => PollKeeps(env, c, now, x);
      case Issue(_, _, _, _, _, _, _, _, _, _) => IssueKeeps(env, c, x);
      case Passwords(_, _, _, _, _, _) => AuthorityKeeps(env, c, x.authorityAt, x.a, x.w);
      case Revoke(_, _, _, _) => RevokeKeeps(env, c, x);
      case Login(_, _, _, _, _, _, _, _, _) => LoginKeeps(env, c, now, x);
      case Session(_, _, _, _, _, _) => AuthorityKeeps(env, c, x.authorityAt, x.a, x.w);
      case Refresh(_, _, _, _, _, _, _, _) => RefreshKeeps(env, c, x);
      case Logout(_, _, _) => LogoutKeeps(env, c, x);
      case _ =>
    }
  }

  /** Every action keeps the core sound, wherever it is cut off and whichever writes fail. */
  lemma ActKeeps(env: Env, c: Core, now: Time, x: Action)
    requires env.Lawful() && CoreSound(env, c)
    ensures CoreSound(env, Act(env, c, now, x).core)
  {
    PrunedKeeps(env, c, now);
    OnKeeps(env, Pruned(c, now), now, x);
  }
}
