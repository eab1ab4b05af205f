/** How one action may change the bound account and the chain evidence. */
module AccountEvidence {
  import opened Ordered
  import opened Outcomes
  import opened Account
  import opened AccountRuns
  import Syntax
  import RateLimit
  import Chain
  import Cr = Credentials
  import Runs = CredentialRuns

  /** The evidence that the tables hold, as far as it can be read. */
  function Held(env: Env, db: Cr.Tables): Option<Chain.Verified> {
    if db.evidence.None? then None
    else match env.read(db.evidence.value) case None => None case Some(e) => Some(e.identity)
  }

  /** The finalized block, if any, that the node answered an action with. */
  function Seen(a: Await<Chain.Answers>, now: Time): Option<Chain.Block> {
    if a.TimedOut? then None
    else match Chain.Finalized(a.value, now) case Ok(b) => Some(b) case Err(_) => None
  }

  function SeenBy(x: Action): Option<Chain.Block> {
    match x
    case Poll(_, _, _, verifyAt, a, _, _, _, _, _, _) => Seen(a, verifyAt)
    case Issue(_, _, _, at, a, _, _, _, _, _) => Seen(a, at)
    case Passwords(_, _, at, a, _, _) => Seen(a, at)
    case Login(_, _, at, a, _, _, _, _, _) => Seen(a, at)
    case Session(_, _, _, at, a, _) => Seen(a, at)
    case Refresh(_, _, at, a, _, _, _, _) => Seen(a, at)
    case _ => None
  }

  /** The bound account keeps its FID, identity, key and repository. */
  predicate SameAccount(before: Cr.Tables, after: Cr.Tables) {
    before.account.Some? ==>
      && after.account.Some? && after.account.value.repoKey == before.account.value.repoKey
      && after.account.value.account.(enabled := true, authority := [])
         == before.account.value.account.(enabled := true, authority := [])
  }

  /** Why a session may end without a word from the chain: the owner revoked its password or logged it
      out, or it had expired when a login cleared expired sessions away. A login also replaces a session
      of the very identifier that it drew, which fresh identifiers rule out. */
  datatype Excuse = NoExcuse | Revoked(name: Bytes) | LoggedOut(sid: Bytes) | Expired(at: Time, drawn: Bytes)

  predicate Excused(e: Excuse, sid: Bytes, row: Cr.Row) {
    match e
    case NoExcuse => false
    case Revoked(name) => row.passwordName == name
    case LoggedOut(gone) => sid == gone
    case Expired(at, drawn) => row.refreshExp <= at || sid == drawn
  }

  function TokenSid(env: Cr.Env, token: Bytes): Bytes {
    match env.open(token) case None => [] case Some(o) => o.claims.sid
  }

  function ExcuseOf(env: Env, x: Action): Excuse {
    if x.Revoke? then Revoked(x.name)
    else if x.Logout? then LoggedOut(TokenSid(env.store, x.refresh))
    else if x.Login? then Expired(x.loginAt, x.sid)
    else NoExcuse
  }

  function StepExcuse(env: Env, step: Runs.Step): Excuse {
    match step
    case Revoke(name) => Revoked(name)
    case Logout(token, _) => LoggedOut(TokenSid(env.store, token))
    case Login(_, _, at, sid, _, _) => Expired(at, sid)
    case _ => NoExcuse
  }

  /** The session goes on, if perhaps with a new refresh token. */
  predicate GoesOn(before: Cr.Row, after: Cr.Row) {
    after.passwordName == before.passwordName && after.refreshExp == before.refreshExp
  }

  /** Nothing touched the evidence and the account; every password is there unless the owner revoked it,
      and every session goes on unless it is excused. */
  predicate Untouched(before: Cr.Tables, after: Cr.Tables, e: Excuse) {
    && after.evidence == before.evidence && after.account == before.account
    && (forall p :: p in before.passwords ==> p in after.passwords || e == Revoked(p.name))
    && (forall sid :: sid in before.sessions ==>
          || (sid in after.sessions && GoesOn(before.sessions[sid], after.sessions[sid]))
          || Excused(e, sid, before.sessions[sid]))
  }

  /** The block lies ahead of the evidence held, or is the same; evidence held afterwards is of that block. */
  predicate Renewed(env: Env, before: Cr.Tables, after: Cr.Tables, seen: Option<Chain.Block>)
    requires Held(env, before).Some?
  {
    && seen.Some? && Chain.Advances(Held(env, before).value, seen.value.number, seen.value.hash)
    && (after.evidence.Some? ==>
          && Held(env, after).Some? && Held(env, after).value.checkedBlock == seen.value.number
          && Held(env, after).value.blockHash == seen.value.hash)
  }

  /** What the step may do to tables that hold evidence. */
  predicate Follows(env: Env, before: Cr.Tables, after: Cr.Tables, seen: Option<Chain.Block>, e: Excuse) {
    && SameAccount(before, after)
    && (Held(env, before).Some? ==> Untouched(before, after, e) || Renewed(env, before, after, seen))
  }

  lemma SelfFollows(env: Env, db: Cr.Tables, seen: Option<Chain.Block>, e: Excuse)
    ensures Follows(env, db, db, seen, e)
  {
  }

  lemma ExcusesOnlyHelp(env: Env, before: Cr.Tables, after: Cr.Tables, seen: Option<Chain.Block>, e: Excuse)
    requires Follows(env, before, after, seen, NoExcuse)
    ensures Follows(env, before, after, seen, e)
  {
  }

  lemma UntouchedTwice(before: Cr.Tables, middle: Cr.Tables, after: Cr.Tables, e: Excuse)
    requires Untouched(before, middle, NoExcuse) && Untouched(middle, after, e)
    ensures Untouched(before, after, e)
  {
  }

  lemma ThenUntouched(env: Env, before: Cr.Tables, middle: Cr.Tables, after: Cr.Tables, seen: Option<Chain.Block>, e: Excuse)
    requires Follows(env, before, middle, seen, NoExcuse) && Untouched(middle, after, e)
    ensures Follows(env, before, after, seen, e)
  {
    if Untouched(before, middle, NoExcuse) {
      UntouchedTwice(before, middle, after, e);
    }
  }

  lemma TableStepUntouched(env: Env, db: Cr.Tables, step: Runs.Step)
    requires step.Issue? || step.Revoke? || step.Login? || step.Rotate? || step.Logout?
    ensures Untouched(db, Runs.TableStep(env.store, db, step).db, StepExcuse(env, step))
  {
    TableStepLeaves(env.store, db, step);
    if step.Revoke? {
      OthersStay(db.passwords, step.name);
    }
  }

  lemma {:induction false} OthersStay(passwords: seq<Cr.Password>, name: Bytes)
    ensures forall p :: p in passwords && p.name != name ==> p in Cr.WithoutName(passwords, name)
  {
    if passwords != [] {
      OthersStay(passwords[..|passwords| - 1], name);
      assert passwords == passwords[..|passwords| - 1] + [passwords[|passwords| - 1]];
    }
  }

  lemma AuthorityFollows(env: Env, c: Core, now: Time, a: Await<Chain.Answers>, w: Writes)
    requires env.Lawful() && CoreSound(env, c)
    ensures Follows(env, c.db, Authority(env, c, now, a, w).core.db, Seen(a, now), NoExcuse)
  {
    var d := Authority(env, c, now, a, w).core;
    AuthorityDoes(env, c, now, a, w);
    if d.db != c.db || d.grants != c.grants {
      var e := env.read(c.db.evidence.value).value;
      if d.db != Cr.InvalidateAuthority(c.db).db {
        var v :| d.db == c.db.(evidence := Some(env.show(e.(identity := v))))
              && Chain.VerifyAuthority(a.value, Chain.Parsed(e.identity.fid, e.identity.address), now, Some(e.identity)) == Ok(v);
        Chain.VerifiedEvidence(a.value, Chain.Parsed(e.identity.fid, e.identity.address), now, Some(e.identity));
        assert env.read(d.db.evidence.value) == Some(e.(identity := v));
      }
    }
  }

  /** The tables after a binding that succeeds and the evidence that may follow it. */
  lemma AdmitFollows(env: Env, c: Core, id: Bytes, proof: Chain.Proof, v: Chain.Verified, identity: Syntax.Identity,
                     now: Time, bindAt: Time, checkedAt: Time, w: Writes, key: Bytes, accountToken: Bytes)
    requires env.Lawful() && id in c.pending
    ensures var d := Admit(env, c, id, proof, v, identity, now, bindAt, checkedAt, w, key, accountToken).core;
            && SameAccount(c.db, d.db) && d.db.passwords == c.db.passwords && d.db.sessions == c.db.sessions
            && (d.db.evidence == c.db.evidence || Held(env, d.db) == Some(v))
            && (Cr.EnabledAccount(c.db).Ok? ==> d.db.account == c.db.account)
  {
    assert env.read(env.show(Evidence(v, proof))) == Some(Evidence(v, proof));
  }

  lemma VerifyFollows(env: Env, c: Core, id: Bytes, proof: Chain.Proof, now: Time, verifyAt: Time, a: Await<Chain.Answers>,
                      expiryAt: Time, bindAt: Time, checkedAt: Time, w: Writes, key: Bytes, accountToken: Bytes)
    requires env.Lawful() && CoreSound(env, c) && id in c.pending && env.identity(c.settings).Some?
    ensures Follows(env, c.db, PollVerify(env, c, id, proof, now, verifyAt, a, expiryAt, bindAt, checkedAt, w, key, accountToken).core.db,
                    Seen(a, verifyAt), NoExcuse)
  {
    var d := PollVerify(env, c, id, proof, now, verifyAt, a, expiryAt, bindAt, checkedAt, w, key, accountToken).core;
    VerifyDoes(env, c, id, proof, now, verifyAt, a, expiryAt, bindAt, checkedAt, w, key, accountToken);
    if d != c && d != c.(pending := c.pending - {id}) {
      var identity := env.identity(c.settings).value;
      CheckedLogin(env, identity, proof, c.pending[id].challenge, verifyAt, a);
      var v := LoginCheck(env, identity, proof, c.pending[id].challenge, verifyAt, a).value;
      AdmittedFollows(env, c, id, proof, v, identity, now, bindAt, checkedAt, w, key, accountToken);
    }
  }

  lemma AdmittedFollows(env: Env, c: Core, id: Bytes, proof: Chain.Proof, v: Chain.Verified, identity: Syntax.Identity,
                        now: Time, bindAt: Time, checkedAt: Time, w: Writes, key: Bytes, accountToken: Bytes)
    requires env.Lawful() && CoreSound(env, c) && id in c.pending
    requires Held(env, c.db).Some? ==> !BehindEvidence(Held(env, c.db).value, v)
    ensures var cleared := Supersede(c, env.FingerprintOf(v), w);
            var d := if cleared.result.Err? then cleared.core
                     else Admit(env, cleared.core, id, proof, v, identity, now, bindAt, checkedAt, w, key, accountToken).core;
            Follows(env, c.db, d.db, Some(Chain.Block(v.checkedBlock, v.blockHash)), NoExcuse)
  {
    var cleared := Supersede(c, env.FingerprintOf(v), w);
    SupersedeKeeps(env, c, env.FingerprintOf(v), w);
    AdmitFollows(env, cleared.core, id, proof, v, identity, now, bindAt, checkedAt, w, key, accountToken);
    SettledLogin(env, c.db, cleared.core.db,
                 if cleared.result.Err? then cleared.core.db
                 else Admit(env, cleared.core, id, proof, v, identity, now, bindAt, checkedAt, w, key, accountToken).core.db, v);
  }

  lemma SettledLogin(env: Env, before: Cr.Tables, middle: Cr.Tables, after: Cr.Tables, v: Chain.Verified)
    requires Held(env, before).Some? ==> !BehindEvidence(Held(env, before).value, v) && Cr.EnabledAccount(before).Ok?
    requires middle == before || (before.account.Some? && middle == Cr.InvalidateAuthority(before).db)
    requires after == middle
             || (&& SameAccount(middle, after) && after.passwords == middle.passwords && after.sessions == middle.sessions
                 && (after.evidence == middle.evidence || Held(env, after) == Some(v))
                 && (Cr.EnabledAccount(middle).Ok? ==> after.account == middle.account))
    ensures Follows(env, before, after, Some(Chain.Block(v.checkedBlock, v.blockHash)), NoExcuse)
  {
  }

  lemma PollFollows(env: Env, c: Core, now: Time, x: Action)
    requires env.Lawful() && CoreSound(env, c) && x.Poll?
    ensures Follows(env, c.db, PollAction(env, c, now, x).core.db, Seen(x.a, x.verifyAt), NoExcuse)
  {
    RelayKeeps(env, c, x.pollId, x.token, now, x.status);
    var s := PollRelay(env, c, x.pollId, x.token, now, x.status);
    if s.stage.Proceed? {
      VerifyFollows(env, s.core, x.pollId, s.stage.proof, now, x.verifyAt, x.a, x.expiryAt, x.bindAt, x.checkedAt, x.w, x.key, x.accountToken);
    }
  }

  lemma CheckedStepFollows(env: Env, c: Core, d: Core, now: Time, a: Await<Chain.Answers>, w: Writes, step: Runs.Step)
    requires env.Lawful() && CoreSound(env, c) && (step.Issue? || step.Login? || step.Rotate?)
    requires var checked := Authority(env, c, now, a, w).core;
             d.db == c.db || d.db == checked.db || d.db == Runs.TableStep(env.store, checked.db, step).db
    ensures Follows(env, c.db, d.db, Seen(a, now), StepExcuse(env, step))
  {
    var checked := Authority(env, c, now, a, w).core;
    AuthorityFollows(env, c, now, a, w);
    TableStepUntouched(env, checked.db, step);
    ThenUntouched(env, c.db, checked.db, Runs.TableStep(env.store, checked.db, step).db, Seen(a, now), StepExcuse(env, step));
    ExcusesOnlyHelp(env, c.db, checked.db, Seen(a, now), StepExcuse(env, step));
    SelfFollows(env, c.db, Seen(a, now), StepExcuse(env, step));
  }

  lemma IssueFollows(env: Env, c: Core, x: Action)
    requires env.Lawful() && CoreSound(env, c) && x.Issue?
    ensures Follows(env, c.db, IssueAction(env, c, x).core.db, Seen(x.a, x.authorityAt), NoExcuse)
  {
    IssueDoes(env, c, x);
    CheckedStepFollows(env, c, IssueAction(env, c, x).core, x.authorityAt, x.a, x.w, IssueStep(x));
  }

  lemma LoginFollows(env: Env, c: Core, now: Time, x: Action)
    requires env.Lawful() && CoreSound(env, c) && x.Login?
    ensures Follows(env, c.db, LoginAction(env, c, now, x).core.db, Seen(x.a, x.authorityAt), ExcuseOf(env, x))
  {
    var limited := c.(passwordTimes := RateLimit.AfterLimit(c.passwordTimes, now, 60, 20));
    LoginDoes(env, c, now, x);
    LimitedSound(env, c, limited);
    LimitedFollows(env, c, limited, LoginAction(env, c, now, x).core, x);
  }

  lemma LimitedFollows(env: Env, c: Core, limited: Core, d: Core, x: Action)
    requires env.Lawful() && CoreSound(env, limited) && limited == c.(passwordTimes := limited.passwordTimes) && x.Login?
    requires var checked := Authority(env, limited, x.authorityAt, x.a, x.w).core;
             d.db == c.db || d.db == checked.db || d.db == Runs.TableStep(env.store, checked.db, LoginStep(x)).db
    ensures Follows(env, c.db, d.db, Seen(x.a, x.authorityAt), ExcuseOf(env, x))
  {
    CheckedStepFollows(env, limited, d, x.authorityAt, x.a, x.w, LoginStep(x));
  }

  lemma RefreshFollows(env: Env, c: Core, x: Action)
    requires env.Lawful() && CoreSound(env, c) && x.Refresh?
    ensures Follows(env, c.db, RefreshAction(env, c, x).core.db, Seen(x.a, x.authorityAt), NoExcuse)
  {
    RefreshDoes(env, c, x);
    CheckedStepFollows(env, c, RefreshAction(env, c, x).core, x.authorityAt, x.a, x.w, RotateStep(x));
  }

  lemma LocalFollows(env: Env, c: Core, x: Action)
    requires x.Revoke? || x.Logout?
    ensures Follows(env, c.db, (if x.Revoke? then RevokeAction(env, c, x) else LogoutAction(env, c, x)).core.db, None, ExcuseOf(env, x))
  {
    if x.Revoke? {
      RevokeDoes(env, c, x);
      TableStepUntouched(env, c.db, Runs.Revoke(x.name));
    } else {
      LogoutDoes(env, c, x);
      TableStepUntouched(env, c.db, Runs.Logout(x.refresh, x.logoutAt));
    }
  }

  lemma ReadDoes(env: Env, c: Core, x: Action)
    requires x.Session? || x.Passwords?
    ensures var d := if x.Session? then SessionAction(env, c, x) else PasswordsAction(env, c, x);
            d.core == c || d.core == Authority(env, c, x.authorityAt, x.a, x.w).core
  {
  }

  lemma ReadFollows(env: Env, c: Core, x: Action)
    requires env.Lawful() && CoreSound(env, c) && (x.Session? || x.Passwords?)
    ensures Follows(env, c.db, (if x.Session? then SessionAction(env, c, x) else PasswordsAction(env, c, x)).core.db,
                    Seen(x.a, x.authorityAt), NoExcuse)
  {
    ReadDoes(env, c, x);
    AuthorityFollows(env, c, x.authorityAt, x.a, x.w);
    SelfFollows(env, c.db, Seen(x.a, x.authorityAt), NoExcuse);
  }

  lemma OnFollows(env: Env, c: Core, now: Time, x: Action)
    requires env.Lawful() && CoreSound(env, c)
    ensures Follows(env, c.db, ActOn(env, c, now, x).core.db, SeenBy(x), ExcuseOf(env, x))
  {
    match x {
      case Poll(_, _, _, _, _, _, _, _, _, _, _) => PollFollows(env, c, now, x);
      case Issue(_, _, _, _, _, _, _, _, _, _) => IssueFollows(env, c, x);
      case Passwords(_, _, _, _, _, _) => ReadFollows(env, c, x);
      case Revoke(_, _, _, _) => LocalFollows(env, c, x);
      case Login(_, _, _, _, _, _, _, _, _) => LoginFollows(env, c, now, x);
      case Session(_, _, _, _, _, _) => ReadFollows(env, c, x);
      case Refresh(_, _, _, _, _, _, _, _) => RefreshFollows(env, c, x);
      case Logout(_, _, _) => LocalFollows(env, c, x);
      case _ => SelfFollows(env, c.db, SeenBy(x), ExcuseOf(env, x));
    }
  }

  /** No answer from a lower or forked block ever disables the account, replaces its evidence or deletes
      passwords or sessions: an action touches them only with a finalized block that advances the evidence
      held, and evidence held afterwards is of that block. The bound account stays the same one. */
  lemma ActFollows(env: Env, c: Core, now: Time, x: Action)
    requires env.Lawful() && CoreSound(env, c)
    ensures Follows(env, c.db, Act(env, c, now, x).core.db, SeenBy(x), ExcuseOf(env, x))
  {
    PrunedKeeps(env, c, now);
    OnFollows(env, Pruned(c, now), now, x);
    SelfFollows(env, c.db, SeenBy(x), ExcuseOf(env, x));
  }
}
