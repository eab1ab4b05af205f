/** When actions succeed, and what their success rests on. */
module ActionSuccess {
  import opened Ordered
  import opened Outcomes
  import opened Account
  import opened AccountRuns
  import opened AccountEvidence
  import opened LoginEvidence
  import opened LoginPolling
  import Syntax
  import Chain
  import RateLimit
  import Proof = AuthorityProof
  import Cr = Credentials
  import Tokens = CredentialTokens

  // ----- the authority check -----

  /** A check succeeded less than thirty seconds ago. */
  predicate RecentlyChecked(c: Core, now: Time) {
    c.checkedAt.Some? && c.checkedAt.value <= now < c.checkedAt.value + 30
  }

  /** The stored evidence is the enabled account's own, and the answers prove it anew as `v`. */
  ghost predicate ProvenAnew(env: Env, c: Core, now: Time, a: Await<Chain.Answers>, v: Chain.Verified) {
    && c.db.account.Some? && c.db.account.value.account.enabled && env.identity(c.settings).Some?
    && c.db.evidence.Some? && env.read(c.db.evidence.value).Some? && a.Answered?
    && var e := env.read(c.db.evidence.value).value;
       && e.identity.fid == c.db.account.value.account.fid && env.FingerprintOf(e.identity) == c.db.account.value.account.authority
       && env.parseProof(env.identity(c.settings).value, e.proof) == Ok(Chain.Parsed(e.identity.fid, e.identity.address))
       && e.identity.checkedAt <= now && e.identity.checkedBlock > 0
       && Chain.HexLength(e.identity.custody) == Some(20) && Chain.HexLength(e.identity.blockHash) == Some(32)
       && Proof.Proven(a.value, Chain.Parsed(e.identity.fid, e.identity.address), now, Some(e.identity), v)
  }

  /** The check succeeds exactly while the service is enabled and either one succeeded less
      than thirty seconds ago, or the account's own evidence is proven anew and stored. */
  lemma CheckSucceeds(env: Env, c: Core, now: Time, a: Await<Chain.Answers>, w: Writes)
    ensures var d := Authority(env, c, now, a, w);
            && (d.result.Ok? <==>
                  c.settings.enabled && (RecentlyChecked(c, now) || exists v :: ProvenAnew(env, c, now, a, v) && Recorded(env, c, v, w)))
            && (d.result.Ok? ==> if RecentlyChecked(c, now) then d.core == c else d.core.checkedAt == Some(now))
  {
    if c.settings.enabled && !RecentlyChecked(c, now) {
      DueCheckSucceeds(env, c, now, a, w);
    }
  }

  lemma DueCheckSucceeds(env: Env, c: Core, now: Time, a: Await<Chain.Answers>, w: Writes)
    requires c.settings.enabled && !RecentlyChecked(c, now)
    ensures var d := Authority(env, c, now, a, w);
            && (d.result.Ok? <==> exists v :: ProvenAnew(env, c, now, a, v) && Recorded(env, c, v, w))
            && (d.result.Ok? ==> d.core.checkedAt == Some(now))
  {
    if OwnEvidence(env, c).Ok? && env.identity(c.settings).Some? && a.Answered? {
      AnswersProve(env, c, now, a);
    }
  }

  lemma AnswersProve(env: Env, c: Core, now: Time, a: Await<Chain.Answers>)
    requires OwnEvidence(env, c).Ok? && env.identity(c.settings).Some? && a.Answered?
    ensures var e := OwnEvidence(env, c).value;
            var r := Chain.Recheck(a.value, env.parseProof(env.identity(c.settings).value, e.proof), e.identity, now);
            forall v :: r == Ok(v) <==> ProvenAnew(env, c, now, a, v)
  {
    var e := OwnEvidence(env, c).value;
    var parsed := env.parseProof(env.identity(c.settings).value, e.proof);
    forall v ensures Chain.Recheck(a.value, parsed, e.identity, now) == Ok(v) <==> ProvenAnew(env, c, now, a, v) {
      Proof.RecheckedExactly(a.value, parsed, e.identity, now, v);
    }
  }

  /** A check that fails on the chain's word is not remembered as recent; one that is cut off changes nothing. */
  lemma FailedCheckForgets(env: Env, c: Core, now: Time, a: Await<Chain.Answers>, w: Writes)
    requires Authority(env, c, now, a, w).result.Err? && Authority(env, c, now, a, w).result.error.Auth?
    ensures var d := Authority(env, c, now, a, w);
            d.core.checkedAt.None? || (a.TimedOut? && d == Did(c, Err(Auth(Chain.Unavailable))))
  {
  }

  /** The renewed evidence is written, and it fits. */
  predicate Recorded(env: Env, c: Core, v: Chain.Verified, w: Writes)
    requires c.db.evidence.Some? && env.read(c.db.evidence.value).Some?
  {
    w.evidence && 0 < |env.show(env.read(c.db.evidence.value).value.(identity := v))| <= 32_768
  }

  // ----- what each action needs -----

  /** Reading a session takes an access token that is accepted, and the check. */
  lemma SessionSucceeds(env: Env, c: Core, x: Action)
    requires x.Session?
    ensures SessionAction(env, c, x).result.Ok?
       <==> && (exists claims :: Accepted(env, c.db, x.access, Cr.Access, claims, x.readAt, x.rowAt))
            && Authority(env, c, x.authorityAt, x.a, x.w).result.Ok?
  {
    AcceptedExactly(env, c.db, x.access, Cr.Access, x.readAt, x.rowAt);
  }

  /** The bearer is genuine, within its time, and backed by a session of the enabled account. */
  predicate Accepted(env: Env, db: Cr.Tables, token: Bytes, kind: Cr.Kind, c: Cr.Claims, now: Time, rowAt: Time) {
    && db.account.Some? && db.account.value.account.enabled
    && Tokens.Genuine(env.store, token, db.account.value.account, kind, c) && c.iat <= now < c.exp && Tokens.Backed(db, kind, c, rowAt)
  }

  lemma AcceptedExactly(env: Env, db: Cr.Tables, token: Bytes, kind: Cr.Kind, now: Time, rowAt: Time)
    ensures Cr.Bearer(env.store, db, token, kind, now, rowAt).Ok? <==> exists c :: Accepted(env, db, token, kind, c, now, rowAt)
  {
    var r := Cr.Bearer(env.store, db, token, kind, now, rowAt);
    if r.Ok? {
      Tokens.BearerExactly(env.store, db, token, kind, now, rowAt, r.value);
      assert Accepted(env, db, token, kind, r.value, now, rowAt);
    }
    if c :| Accepted(env, db, token, kind, c, now, rowAt) {
      Tokens.BearerExactly(env.store, db, token, kind, now, rowAt, c);
    }
  }

  /** A refresh takes a refresh token that is accepted before the check and, after it, still is. */
  lemma RefreshSucceeds(env: Env, c: Core, x: Action)
    requires x.Refresh?
    ensures var checked := Authority(env, c, x.authorityAt, x.a, x.w);
            (RefreshAction(env, c, x).result.Ok? <==>
               && (exists claims :: Accepted(env, c.db, x.refresh, Cr.Kind.Refresh, claims, x.readAt, x.readAt))
               && checked.result.Ok? && x.w.last
               && (exists claims :: Accepted(env, checked.core.db, x.refresh, Cr.Kind.Refresh, claims, x.rotateAt, x.rotateAt)))
  {
    AcceptedExactly(env, c.db, x.refresh, Cr.Kind.Refresh, x.readAt, x.readAt);
    AcceptedExactly(env, Authority(env, c, x.authorityAt, x.a, x.w).core.db, x.refresh, Cr.Kind.Refresh, x.rotateAt, x.rotateAt);
  }

  /** A logout takes an accepted refresh token, and no check. */
  lemma LogoutSucceeds(env: Env, c: Core, x: Action)
    requires x.Logout?
    ensures LogoutAction(env, c, x).result.Ok?
       <==> x.w.last && exists claims :: Accepted(env, c.db, x.refresh, Cr.Kind.Refresh, claims, x.logoutAt, x.logoutAt)
  {
    AcceptedExactly(env, c.db, x.refresh, Cr.Kind.Refresh, x.logoutAt, x.logoutAt);
  }

  /** A password login takes fewer than twenty attempts within the minute, a password that proves itself
      before the check, the check, and room for a session. */
  lemma LoginSucceeds(env: Env, c: Core, now: Time, x: Action)
    requires x.Login?
    ensures var limited := c.(passwordTimes := RateLimit.AfterLimit(c.passwordTimes, now, 60, 20));
            var checked := Authority(env, limited, x.authorityAt, x.a, x.w);
            (LoginAction(env, c, now, x).result.Ok? <==>
               && |RateLimit.Recent(c.passwordTimes, now, 60)| < 20
               && Cr.ProvenPassword(env.store, c.db, x.identifier, x.secret).Ok? && checked.result.Ok? && x.w.last
               && Cr.ProvenPassword(env.store, checked.core.db, x.identifier, x.secret).Ok?
               && |Cr.Unexpired(checked.core.db.sessions, x.loginAt)| < 64)
  {
  }

  /** Managing passwords takes a live grant of one's own; issuing and listing take it again after the check. */
  lemma GrantsNeeded(env: Env, c: Core, x: Action)
    ensures x.Issue? ==>
              var checked := Authority(env, c, x.authorityAt, x.a, x.w);
              IssueAction(env, c, x).result.Ok? <==>
                && Granted(env, c, x.grant, x.grantAt) && checked.result.Ok? && Granted(env, checked.core, x.grant, x.againAt) && x.w.last
                && Cr.IssuePassword(env.store, checked.core.db, x.name, x.issueAt, x.secret, x.salt).result.Ok?
    ensures x.Passwords? ==>
              var checked := Authority(env, c, x.authorityAt, x.a, x.w);
              PasswordsAction(env, c, x).result.Ok? <==>
                Granted(env, c, x.grant, x.grantAt) && checked.result.Ok? && Granted(env, checked.core, x.grant, x.againAt)
    ensures x.Revoke? ==>
              (RevokeAction(env, c, x).result.Ok? <==> Granted(env, c, x.grant, x.grantAt) && x.w.last && Cr.ValidName(x.name))
  {
  }

  /** Starting a login takes fewer than five starts within the minute, fewer than eight pending logins, an
      identity and the relay's channel. It adds exactly that login, for five minutes. */
  lemma StartSucceeds(env: Env, c: Core, now: Time, x: Action)
    requires x.Start?
    ensures var d := StartAction(env, c, now, x);
            && (d.result.Ok? <==>
                  && |RateLimit.Recent(c.startTimes, now, 60)| < 5 && |c.pending| < 8 && env.identity(c.settings).Some?
                  && x.relay.Answered? && x.relay.value.Ok?)
            && d.core.pending == (if d.result.Ok?
                                  then c.pending[x.id := Pending(env.hash(x.pollToken), Challenge(x.nonce, now, now + 300), x.relay.value.value, None, 0, None)]
                                  else c.pending)
            && d.core == c.(startTimes := RateLimit.AfterLimit(c.startTimes, now, 60, 5), pending := d.core.pending)
  {
  }

  /** Nothing succeeds while the service is disabled, and then nothing changes. */
  lemma DisabledDoesNothing(env: Env, c: Core, now: Time, x: Action)
    requires !c.settings.enabled
    ensures Act(env, c, now, x) == Did(c, Err(Off))
  {
  }

  // ----- a login's poll -----

  /** The relay's answer matters to a poll exactly when the login is pending under this token, not
      completed, not polled within two seconds, and has no proof yet. */
  lemma RelayReadExactly(env: Env, c: Core, now: Time, x: Action)
    requires x.Poll? && c.settings.enabled
    ensures (exists status :: PollRelay(env, Pruned(c, now), x.pollId, x.token, now, status)
                              != PollRelay(env, Pruned(c, now), x.pollId, x.token, now, TimedOut))
       <==> && env.identity(c.settings).Some? && x.pollId in c.pending && now < c.pending[x.pollId].challenge.expiresAt
            && env.hash(x.token) == c.pending[x.pollId].pollHash && c.pending[x.pollId].completion.None?
            && now >= c.pending[x.pollId].lastPoll + 2 && c.pending[x.pollId].proof.None?
  {
    var q := Pruned(c, now);
    if env.identity(c.settings).Some? && x.pollId in q.pending && env.hash(x.token) == q.pending[x.pollId].pollHash
       && q.pending[x.pollId].completion.None? && now >= q.pending[x.pollId].lastPoll + 2 && q.pending[x.pollId].proof.None? {
      var waiting: Await<Result<ChannelStatus, Chain.AuthError>> := Answered(Ok(StillPending));
      assert PollRelay(env, q, x.pollId, x.token, now, waiting).stage == Over(Ok(StillWaiting));
      assert PollRelay(env, q, x.pollId, x.token, now, TimedOut).stage == Over(Err(Auth(Chain.Unavailable)));
    }
  }

  lemma CheckProven(env: Env, id: Syntax.Identity, proof: Chain.Proof, ch: Challenge, now: Time, a: Await<Chain.Answers>)
    requires LoginCheck(env, id, proof, ch, now, a).Ok?
    ensures env.parseLogin(id, proof, ch, now).Ok? && a.Answered?
    ensures Proof.Proven(a.value, env.parseLogin(id, proof, ch, now).value, now, None, LoginCheck(env, id, proof, ch, now, a).value)
  {
    Proof.VerifiedExactly(a.value, env.parseLogin(id, proof, ch, now).value, now, None, LoginCheck(env, id, proof, ch, now, a).value);
  }

  /** A login's grant rests on a proof that parses for its challenge, and on answers that prove it signed,
      by the registered owner of the very FID that the settings allow; the evidence stored is that proof. */
  lemma GrantIsProven(env: Env, c: Core, now: Time, x: Action)
    requires env.Lawful() && CoreSound(env, c) && StoresBy(env, c, now, x)
    ensures var q := Pruned(c, now);
            var v := LoginOf(env, c, now, x);
            var identity := env.identity(c.settings).value;
            var parsed := env.parseLogin(identity, ProofOf(env, c, now, x), q.pending[x.pollId].challenge, x.verifyAt);
            && x.a.Answered? && parsed.Ok? && Proof.Proven(x.a.value, parsed.value, x.verifyAt, None, v)
            && c.settings.allowedFid == Some(v.fid) && x.expiryAt < q.pending[x.pollId].challenge.expiresAt
  {
    var q := Pruned(c, now);
    CheckProven(env, env.identity(c.settings).value, ProofOf(env, c, now, x), q.pending[x.pollId].challenge, x.verifyAt, x.a);
  }

  /** A poll mints a grant exactly when it stores its evidence. */
  lemma MintsExactly(env: Env, c: Core, now: Time, x: Action)
    requires env.Lawful() && CoreSound(env, c) && x.Poll?
    ensures Mints(env, c, now, x, x.pollId) <==> StoresBy(env, c, now, x)
  {
    var q := Pruned(c, now);
    var s := PollRelay(env, q, x.pollId, x.token, now, x.status);
    PrunedKeeps(env, c, now);
    RelayKeeps(env, q, x.pollId, x.token, now, x.status);
    if s.stage.Proceed? {
      RelayChallenge(env, q, x.pollId, x.token, now, x.status);
      SameLogin(env, q, s.core, x.pollId, s.stage.proof, x);
      PollEvidence(env, s.core, x.pollId, s.stage.proof, now, x);
      VerifyPending(env, s.core, x.pollId, s.stage.proof, now, x);
    }
  }

  /** A poll with a proof drops its login exactly when the proof checks out too late, or for another FID. */
  lemma PollDropsExactly(env: Env, c: Core, id: Bytes, proof: Chain.Proof, now: Time, x: Action)
    requires x.Poll? && id in c.pending && env.identity(c.settings).Some?
    ensures var d := VerifyBy(env, c, id, proof, now, x);
            var check := LoginCheck(env, env.identity(c.settings).value, proof, c.pending[id].challenge, x.verifyAt, x.a);
            var late := check.Ok? && x.expiryAt >= c.pending[id].challenge.expiresAt;
            && (id !in d.core.pending <==> late || (check.Ok? && c.settings.allowedFid != Some(check.value.fid)))
            && (late ==> d == Did(c.(pending := c.pending - {id}), Err(Unverified)))
            && (d.result == Err(NotAllowed) <==> check.Ok? && !late && c.settings.allowedFid != Some(check.value.fid))
  {
    var check := LoginCheck(env, env.identity(c.settings).value, proof, c.pending[id].challenge, x.verifyAt, x.a);
    if check.Ok? {
      var cleared := Supersede(c, env.FingerprintOf(check.value), x.w).core;
      AdmitKeepsLogin(env, cleared, id, proof, check.value, now, x);
    }
  }

  lemma AdmitKeepsLogin(env: Env, c: Core, id: Bytes, proof: Chain.Proof, v: Chain.Verified, now: Time, x: Action)
    requires x.Poll? && id in c.pending && env.identity(c.settings).Some?
    ensures var d := Admit(env, c, id, proof, v, env.identity(c.settings).value, now, x.bindAt, x.checkedAt, x.w, x.key, x.accountToken);
            id in d.core.pending && d.result != Err(NotAllowed)
  {
  }

  /** Between two polls of a login that gets anywhere lie two seconds: an earlier one is told to wait, and
      nothing is asked of the relay or the node. */
  lemma SecondPollWaits(env: Env, c: Core, now: Time, x: Action, later: Time, y: Action)
    requires x.Poll? && y.Poll? && y.pollId == x.pollId && c.settings.enabled && env.identity(c.settings).Some? && later < now + 2
    requires x.pollId in Pruned(c, now).pending && env.hash(x.token) == Pruned(c, now).pending[x.pollId].pollHash
    requires PollRelay(env, Pruned(c, now), x.pollId, x.token, now, x.status).stage != Over(Err(Busy))
    requires var d := Pruned(Act(env, c, now, x).core, later);
             && x.pollId in d.pending && d.pending[x.pollId].completion.None? && env.hash(y.token) == d.pending[x.pollId].pollHash
    ensures var d := Pruned(Act(env, c, now, x).core, later);
            PollAction(env, d, later, y) == Did(d, Err(Busy))
  {
    var s := PollRelay(env, Pruned(c, now), x.pollId, x.token, now, x.status);
    if s.stage.Proceed? {
      VerifyKeepsPace(env, s.core, x.pollId, s.stage.proof, now, x);
    }
  }

  lemma VerifyKeepsPace(env: Env, c: Core, id: Bytes, proof: Chain.Proof, now: Time, x: Action)
    requires x.Poll? && id in c.pending && env.identity(c.settings).Some?
    ensures var d := VerifyBy(env, c, id, proof, now, x).core;
            id in d.pending ==> d.pending[id].lastPoll == c.pending[id].lastPoll
  {
  }

  /** A completed login counts as a check, at the reading taken once its evidence was stored. */
  lemma CompletionIsCheck(env: Env, c: Core, now: Time, x: Action)
    requires env.Lawful() && CoreSound(env, c) && StoresBy(env, c, now, x)
    ensures Act(env, c, now, x).core.checkedAt == Some(x.checkedAt)
  {
    var q := Pruned(c, now);
    var s := PollRelay(env, q, x.pollId, x.token, now, x.status);
    PrunedKeeps(env, c, now);
    RelayKeeps(env, q, x.pollId, x.token, now, x.status);
    RelayChallenge(env, q, x.pollId, x.token, now, x.status);
    SameLogin(env, q, s.core, x.pollId, s.stage.proof, x);
    PollEvidence(env, s.core, x.pollId, s.stage.proof, now, x);
    CompletedCheckedAt(env, s.core, x.pollId, s.stage.proof, now, x);
  }

  lemma CompletedCheckedAt(env: Env, c: Core, id: Bytes, proof: Chain.Proof, now: Time, x: Action)
    requires x.Poll? && id in c.pending && env.identity(c.settings).Some? && VerifyBy(env, c, id, proof, now, x).result.Ok?
    ensures VerifyBy(env, c, id, proof, now, x).core.checkedAt == Some(x.checkedAt)
  {
  }

  // ----- expiry -----

  predicate Unexpired(c: Core, now: Time) {
    && (forall id :: id in c.pending ==> c.pending[id].challenge.expiresAt > now)
    && (forall g :: g in c.grants ==> c.grants[g] > now)
  }

  lemma PollUnexpired(env: Env, c: Core, now: Time, x: Action)
    requires x.Poll? && Unexpired(c, now)
    ensures Unexpired(PollAction(env, c, now, x).core, now)
  {
    PollPending(env, c, now, x);
    var s := PollRelay(env, c, x.pollId, x.token, now, x.status);
    if s.stage.Proceed? {
      VerifyPending(env, s.core, x.pollId, s.stage.proof, now, x);
    }
  }

  /** No expired login and no expired grant outlives an action of the enabled service, and no other login
      or grant is lost to expiry. */
  lemma NothingExpired(env: Env, c: Core, now: Time, x: Action)
    requires c.settings.enabled
    ensures Unexpired(Act(env, c, now, x).core, now)
    ensures forall id :: id in Pruned(c, now).pending <==> id in c.pending && c.pending[id].challenge.expiresAt > now
    ensures forall id :: id in Pruned(c, now).pending ==> Pruned(c, now).pending[id] == c.pending[id]
    ensures forall g :: g in Pruned(c, now).grants <==> g in c.grants && c.grants[g] > now
    ensures forall g :: g in Pruned(c, now).grants ==> Pruned(c, now).grants[g] == c.grants[g]
  {
    var q := Pruned(c, now);
    if x.Start? {
      StartSucceeds(env, q, now, x);
    } else if x.Poll? {
      PollUnexpired(env, q, now, x);
    } else {
      ActKept(env, c, now, x);
    }
  }

  /** The public descriptions need an identity and an account, and change nothing. */
  lemma DescriptionsSucceed(env: Env, c: Core, now: Time)
    ensures ActOn(env, c, now, Describe) == Did(c, if env.identity(c.settings).Some? then Ok(()) else Err(Off))
    ensures ActOn(env, c, now, DidDocument) == Did(c, if c.db.account.Some? then Ok(()) else Err(Store(Cr.NotBound)))
  {
  }
}
