/** The account service: Farcaster sign-in, grants, the authority cache, and password sessions. */
module Account {
  import opened Ordered
  import opened Outcomes
  import Syntax
  import Chain
  import Settings
  import RateLimit
  import Cr = Credentials

  type Time = Cr.Time

  const CHALLENGE_TTL := 300
  const GRANT_TTL := 600
  const AUTHORITY_CACHE := 30
  const MAX_PENDING := 8

  datatype Challenge = Challenge(nonce: Bytes, createdAt: Time, expiresAt: nat)
  datatype Completion = Completion(accountToken: Bytes, fid: nat, handle: Bytes, serviceUrl: Bytes, expiresAt: nat)
  datatype Pending = Pending(pollHash: Bytes, challenge: Challenge, channel: Bytes, proof: Option<Chain.Proof>,
                             lastPoll: nat, completion: Option<Completion>)
  datatype Evidence = Evidence(identity: Chain.Verified, proof: Chain.Proof)
  datatype ChannelStatus = StillPending | Completed(proof: Chain.Proof)

  datatype Failure =
    | Busy | Off | Unverified | NotAllowed | NoGrant
    | Auth(e: Chain.AuthError) | Store(s: Cr.Error)

  /** What the service takes from elsewhere. `parseProof` and `parseLogin` read a proof for the identity
      that the settings configure; `parseLogin` also holds it against the challenge and the clock. */
  datatype Env = Env(
    store: Cr.Env,
    hash: Bytes -> Bytes,
    fingerprint: (nat, Bytes, Bytes) -> Bytes,
    show: Evidence -> Bytes,
    read: Bytes -> Option<Evidence>,
    identity: Settings.AccountSettings -> Option<Syntax.Identity>,
    parseProof: (Syntax.Identity, Chain.Proof) -> Result<Chain.Parsed, Chain.AuthError>,
    parseLogin: (Syntax.Identity, Chain.Proof, Challenge, Time) -> Result<Chain.Parsed, Chain.AuthError>)
  {
    ghost predicate Lawful() {
      && (forall e :: read(show(e)) == Some(e))
      && (forall id, p, ch, t :: parseLogin(id, p, ch, t).Ok? ==> parseProof(id, p) == parseLogin(id, p, ch, t))
    }

    function FingerprintOf(v: Chain.Verified): Bytes {
      fingerprint(v.fid, v.address, v.custody)
    }
  }

  /** The core behind its lock: policy, credentials, pending logins, grants, and the authority cache. */
  datatype Core = Core(settings: Settings.AccountSettings, db: Cr.Tables, pending: map<Bytes, Pending>,
                       grants: map<Bytes, nat>, startTimes: seq<nat>, passwordTimes: seq<nat>, checkedAt: Option<Time>)

  /** An awaited call: the action is cut off by its deadline, or it gets an answer. */
  datatype Await<T> = TimedOut | Answered(value: T)

  /** Which of an action's writes to the store succeed. */
  datatype Writes = Writes(invalidate: bool, bind: bool, evidence: bool, last: bool)

  datatype Did<T> = Did(core: Core, result: Result<T, Failure>)

  function Lift<T>(r: Result<T, Cr.Error>): Result<T, Failure> {
    match r case Ok(v) => Ok(v) case Err(e) => Err(Store(e))
  }

  // ----- the authority check -----

  predicate Cached(c: Core, now: Time) {
    c.checkedAt.Some? && now >= c.checkedAt.value && now - c.checkedAt.value < AUTHORITY_CACHE
  }

  /** The stored evidence, if it belongs to the bound account and its authority. */
  function OwnEvidence(env: Env, c: Core): Result<Evidence, Failure> {
    if c.db.account.None? then Err(Store(Cr.NotBound))
    else if !c.db.account.value.account.enabled then Err(Store(Cr.Disabled))
    else if c.db.evidence.None? || env.read(c.db.evidence.value).None? then Err(Unverified)
    else
      var e := env.read(c.db.evidence.value).value;
      if e.identity.fid != c.db.account.value.account.fid || env.FingerprintOf(e.identity) != c.db.account.value.account.authority
      then Err(Unverified) else Ok(e)
  }

  function RecordAuthority(env: Env, c: Core, e: Evidence, v: Chain.Verified, now: Time, w: Writes): (d: Did<()>)
    ensures d.core.settings == c.settings
  {
    if !w.evidence then Did(c, Err(Store(Cr.Persistence))) else
      var o := Cr.SetEvidence(c.db, env.show(e.(identity := v)));
      if o.result.Err? then Did(c.(db := o.db), Err(Store(o.result.error)))
      else Did(c.(db := o.db, checkedAt := Some(now)), Ok(()))
  }

  function RefuseAuthority(c: Core, e: Chain.AuthError, w: Writes): (d: Did<()>)
    ensures d.core.settings == c.settings
  {
    var stale := c.(checkedAt := None);
    if !Chain.Revokes(e) then Did(stale, Err(Auth(e)))
    else if !w.invalidate then Did(stale, Err(Store(Cr.Persistence)))
    else
      var o := Cr.InvalidateAuthority(c.db);
      if o.result.Err? then Did(stale, Err(Store(o.result.error)))
      else Did(stale.(db := o.db, grants := map[]), Err(Auth(e)))
  }

  function Authority(env: Env, c: Core, now: Time, a: Await<Chain.Answers>, w: Writes): (d: Did<()>)
    ensures d.core.settings == c.settings
  {
    if !c.settings.enabled then Did(c, Err(Off))
    else if Cached(c, now) then Did(c, Ok(()))
    else if OwnEvidence(env, c).Err? then Did(c, Err(OwnEvidence(env, c).error))
    else if env.identity(c.settings).None? then Did(c, Err(Off))
    else
      var e := OwnEvidence(env, c).value;
      var parsed := env.parseProof(env.identity(c.settings).value, e.proof);
      match Chain.RecheckLocally(parsed, e.identity, now)
      case Err(x) => RefuseAuthority(c, x, w)
      case Ok(_) =>
        if a.TimedOut? then Did(c, Err(Auth(Chain.Unavailable)))
        else
          match Chain.Recheck(a.value, parsed, e.identity, now)
          case Ok(v) => RecordAuthority(env, c, e, v, now, w)
          case Err(x) => RefuseAuthority(c, x, w)
  }

  // ----- polling a login -----

  datatype Reply = StillWaiting | Complete(completion: Completion)

  /** Either the poll is over with a result, or a proof is at hand. */
  datatype Stage = Over(result: Result<Reply, Failure>) | Proceed(proof: Chain.Proof)
  datatype Staged = Staged(core: Core, stage: Stage)

  /** The first part of a poll: up to having a proof. Only here is the relay read. */
  function PollRelay(env: Env, c: Core, id: Bytes, token: Bytes, now: Time,
                     relay: Await<Result<ChannelStatus, Chain.AuthError>>): (d: Staged)
    ensures d.core.settings == c.settings
  {
    if env.identity(c.settings).None? then Staged(c, Over(Err(Off)))
    else if id !in c.pending || env.hash(token) != c.pending[id].pollHash then Staged(c, Over(Err(Unverified)))
    else
      var p := c.pending[id];
      if p.completion.Some? then Staged(c, Over(Ok(Complete(p.completion.value))))
      else if now - p.lastPoll < 2 then Staged(c, Over(Err(Busy)))
      else
        var polled := p.(lastPoll := now);
        var c1 := c.(pending := c.pending[id := polled]);
        if p.proof.Some? then Staged(c1, Proceed(p.proof.value))
        else
          match relay
          case TimedOut => Staged(c1, Over(Err(Auth(Chain.Unavailable))))
          case Answered(Err(e)) => Staged(c1, Over(Err(Auth(e))))
          case Answered(Ok(StillPending)) => Staged(c1, Over(Ok(StillWaiting)))
          case Answered(Ok(Completed(proof))) =>
            Staged(c.(pending := c.pending[id := polled.(proof := Some(proof))]), Proceed(proof))
  }

  /** The check of a login proof on chain. */
  function LoginCheck(env: Env, id: Syntax.Identity, proof: Chain.Proof, ch: Challenge, now: Time, a: Await<Chain.Answers>)
    : Result<Chain.Verified, Chain.AuthError>
  {
    match env.parseLogin(id, proof, ch, now)
    case Err(e) => Err(e)
    case Ok(p) => if a.TimedOut? then Err(Chain.Unavailable) else Chain.VerifyAuthority(a.value, p, now, None)
  }

  /** A login may not go back behind the stored evidence, nor fork from it. */
  predicate BehindEvidence(before: Chain.Verified, v: Chain.Verified) {
    v.checkedBlock < before.checkedBlock || (v.checkedBlock == before.checkedBlock && v.blockHash != before.blockHash)
  }

  /** A changed authority first loses what the old one had. */
  function Supersede(c: Core, authority: Bytes, w: Writes): (d: Did<()>)
    ensures d.core.settings == c.settings && d.core.pending == c.pending
  {
    if c.db.account.None? || c.db.account.value.account.authority == authority then Did(c, Ok(()))
    else if !w.invalidate then Did(c, Err(Store(Cr.Persistence)))
    else Did(c.(db := Cr.InvalidateAuthority(c.db).db, grants := map[]), Ok(()))
  }

  /** Binding, evidence, and the grant with its completion. */
  function Admit(env: Env, c: Core, id: Bytes, proof: Chain.Proof, v: Chain.Verified, identity: Syntax.Identity,
                 now: Time, bindAt: Time, checkedAt: Time, w: Writes, key: Bytes, accountToken: Bytes): (d: Did<Reply>)
    requires id in c.pending
    ensures d.core.settings == c.settings
  {
    if !w.bind then Did(c, Err(Store(Cr.Persistence))) else
      var bound := Cr.BindVerified(env.store, c.db, v.fid, env.FingerprintOf(v), identity, bindAt, key);
      if bound.result.Err? then Did(c, Err(Store(bound.result.error))) else
        var c1 := c.(db := bound.db);
        if !w.evidence then Did(c1, Err(Store(Cr.Persistence))) else
          var kept := Cr.SetEvidence(c1.db, env.show(Evidence(v, proof)));
          if kept.result.Err? then Did(c1, Err(Store(kept.result.error))) else
            var account := bound.result.value;
            var done := Completion(accountToken, account.fid, account.identity.handle, account.identity.serviceUrl, now + GRANT_TTL);
            var p := c.pending[id].(proof := None, channel := [], completion := Some(done));
            Did(c1.(db := kept.db, checkedAt := Some(checkedAt), grants := c.grants[env.hash(accountToken) := now + GRANT_TTL],
                    pending := c.pending[id := p]), Ok(Complete(done)))
  }

  /** The second part of a poll: from a proof to a grant. */
  function PollVerify(env: Env, c: Core, id: Bytes, proof: Chain.Proof, now: Time, verifyAt: Time, a: Await<Chain.Answers>,
                      expiryAt: Time, bindAt: Time, checkedAt: Time, w: Writes, key: Bytes, accountToken: Bytes): (d: Did<Reply>)
    requires id in c.pending && env.identity(c.settings).Some?
    ensures d.core.settings == c.settings
  {
    var identity := env.identity(c.settings).value;
    match LoginCheck(env, identity, proof, c.pending[id].challenge, verifyAt, a)
    case Err(e) => Did(c, Err(Auth(e)))
    case Ok(v) =>
      if expiryAt >= c.pending[id].challenge.expiresAt then Did(c.(pending := c.pending - {id}), Err(Unverified))
      else if c.settings.allowedFid != Some(v.fid) then Did(c.(pending := c.pending - {id}), Err(NotAllowed))
      else if c.db.evidence.Some? && env.read(c.db.evidence.value).None? then Did(c, Err(Unverified))
      else if c.db.evidence.Some? && BehindEvidence(env.read(c.db.evidence.value).value.identity, v)
      then Did(c, Err(Auth(Chain.InvalidChainEvidence)))
      else
        var cleared := Supersede(c, env.FingerprintOf(v), w);
        if cleared.result.Err? then Did(cleared.core, Err(cleared.result.error))
        else Admit(env, cleared.core, id, proof, v, identity, now, bindAt, checkedAt, w, key, accountToken)
  }

  // ----- actions -----

  function Pruned(c: Core, now: Time): Core {
    c.(pending := map id | id in c.pending && c.pending[id].challenge.expiresAt > now :: c.pending[id],
       grants := map g | g in c.grants && c.grants[g] > now :: c.grants[g])
  }

  predicate Granted(env: Env, c: Core, token: Bytes, now: Time) {
    env.hash(token) in c.grants && c.grants[env.hash(token)] > now
  }

  /** An action with every answer, clock reading and random value that it meets. */
  datatype Action =
    | Start(relay: Await<Result<Bytes, Chain.AuthError>>, nonce: Bytes, id: Bytes, pollToken: Bytes)
    | Poll(pollId: Bytes, token: Bytes, status: Await<Result<ChannelStatus, Chain.AuthError>>, verifyAt: Time,
           a: Await<Chain.Answers>, expiryAt: Time, bindAt: Time, checkedAt: Time, w: Writes, key: Bytes, accountToken: Bytes)
    | Issue(grant: Bytes, name: Bytes, grantAt: Time, authorityAt: Time, a: Await<Chain.Answers>, w: Writes, againAt: Time,
            issueAt: Time, secret: Bytes, salt: Bytes)
    | Passwords(grant: Bytes, grantAt: Time, authorityAt: Time, a: Await<Chain.Answers>, w: Writes, againAt: Time)
    | Revoke(grant: Bytes, name: Bytes, grantAt: Time, w: Writes)
    | Login(identifier: Bytes, secret: Bytes, authorityAt: Time, a: Await<Chain.Answers>, w: Writes, loginAt: Time,
            sid: Bytes, jti: Bytes, accessJti: Bytes)
    | Session(access: Bytes, readAt: Time, rowAt: Time, authorityAt: Time, a: Await<Chain.Answers>, w: Writes)
    | Refresh(refresh: Bytes, readAt: Time, authorityAt: Time, a: Await<Chain.Answers>, w: Writes, rotateAt: Time,
              jti: Bytes, accessJti: Bytes)
    | Logout(refresh: Bytes, w: Writes, logoutAt: Time)
    | Describe
    | DidDocument

  function AfterStore<T>(c: Core, ok: bool, o: Cr.Outcome<T>): (d: Did<()>)
    ensures d.core.settings == c.settings
  {
    if !ok then Did(c, Err(Store(Cr.Persistence)))
    else Did(c.(db := o.db), match o.result case Ok(_) => Ok(()) case Err(e) => Err(Store(e)))
  }

  function PollAction(env: Env, c: Core, now: Time, x: Action): (d: Did<Reply>)
    requires x.Poll?
    ensures d.core.settings == c.settings
  {
    var s := PollRelay(env, c, x.pollId, x.token, now, x.status);
    match s.stage
    case Over(r) => Did(s.core, r)
    case Proceed(proof) =>
      PollVerify(env, s.core, x.pollId, proof, now, x.verifyAt, x.a, x.expiryAt, x.bindAt, x.checkedAt, x.w, x.key, x.accountToken)
  }

  function StartAction(env: Env, c: Core, now: Time, x: Action): (d: Did<()>)
    requires x.Start?
    ensures d.core.settings == c.settings
  {
    var limited := c.(startTimes := RateLimit.AfterLimit(c.startTimes, now, 60, 5));
    if !RateLimit.Allowed(c.startTimes, now, 60, 5) || |c.pending| >= MAX_PENDING then Did(limited, Err(Busy))
    else if env.identity(c.settings).None? then Did(limited, Err(Off))
    else
      match x.relay
      case TimedOut => Did(limited, Err(Auth(Chain.Unavailable)))
      case Answered(Err(e)) => Did(limited, Err(Auth(e)))
      case Answered(Ok(channel)) =>
        var p := Pending(env.hash(x.pollToken), Challenge(x.nonce, now, now + CHALLENGE_TTL), channel, None, 0, None);
        Did(limited.(pending := c.pending[x.id := p]), Ok(()))
  }

  function IssueAction(env: Env, c: Core, x: Action): (r: Did<()>)
    requires x.Issue?
    ensures r.core.settings == c.settings
  {
    if !Granted(env, c, x.grant, x.grantAt) then Did(c, Err(NoGrant)) else
      var d := Authority(env, c, x.authorityAt, x.a, x.w);
      if d.result.Err? then d
      else if !Granted(env, d.core, x.grant, x.againAt) then Did(d.core, Err(NoGrant))
      else AfterStore(d.core, x.w.last, Cr.IssuePassword(env.store, d.core.db, x.name, x.issueAt, x.secret, x.salt))
  }

  function PasswordsAction(env: Env, c: Core, x: Action): (r: Did<()>)
    requires x.Passwords?
    ensures r.core.settings == c.settings
  {
    if !Granted(env, c, x.grant, x.grantAt) then Did(c, Err(NoGrant)) else
      var d := Authority(env, c, x.authorityAt, x.a, x.w);
      if d.result.Err? || Granted(env, d.core, x.grant, x.againAt) then d else Did(d.core, Err(NoGrant))
  }

  /** Revoking stays possible while the node is unreachable. */
  function RevokeAction(env: Env, c: Core, x: Action): (r: Did<()>)
    requires x.Revoke?
    ensures r.core.settings == c.settings
  {
    if !Granted(env, c, x.grant, x.grantAt) then Did(c, Err(NoGrant)) else AfterStore(c, x.w.last, Cr.RevokePassword(c.db, x.name))
  }

  function LoginAction(env: Env, c: Core, now: Time, x: Action): (r: Did<()>)
    requires x.Login?
    ensures r.core.settings == c.settings
  {
    var limited := c.(passwordTimes := RateLimit.AfterLimit(c.passwordTimes, now, 60, 20));
    if !RateLimit.Allowed(c.passwordTimes, now, 60, 20) then Did(limited, Err(Busy))
    else if Cr.ProvenPassword(env.store, c.db, x.identifier, x.secret).Err? then Did(limited, Err(Store(Cr.InvalidCredentials)))
    else
      var d := Authority(env, limited, x.authorityAt, x.a, x.w);
      if d.result.Err? then d
      else AfterStore(d.core, x.w.last, Cr.Authenticate(env.store, d.core.db, x.identifier, x.secret, x.loginAt, x.sid, x.jti, x.accessJti))
  }

  function SessionAction(env: Env, c: Core, x: Action): (r: Did<()>)
    requires x.Session?
    ensures r.core.settings == c.settings
  {
    var bearer := Cr.Bearer(env.store, c.db, x.access, Cr.Access, x.readAt, x.rowAt);
    if bearer.Err? then Did(c, Err(Store(bearer.error))) else Authority(env, c, x.authorityAt, x.a, x.w)
  }

  function RefreshAction(env: Env, c: Core, x: Action): (r: Did<()>)
    requires x.Refresh?
    ensures r.core.settings == c.settings
  {
    var bearer := Cr.Bearer(env.store, c.db, x.refresh, Cr.Kind.Refresh, x.readAt, x.readAt);
    if bearer.Err? then Did(c, Err(Store(bearer.error))) else
      var d := Authority(env, c, x.authorityAt, x.a, x.w);
      if d.result.Err? then d
      else AfterStore(d.core, x.w.last, Cr.RefreshSession(env.store, d.core.db, x.refresh, x.rotateAt, x.jti, x.accessJti))
  }

  function LogoutAction(env: Env, c: Core, x: Action): (r: Did<()>)
    requires x.Logout?
    ensures r.core.settings == c.settings
  {
    AfterStore(c, x.w.last, Cr.DeleteSession(env.store, c.db, x.refresh, x.logoutAt))
  }

  function DescribeAction(env: Env, c: Core): (r: Did<()>)
    ensures r.core.settings == c.settings
  {
    Did(c, if env.identity(c.settings).None? then Err(Off) else Ok(()))
  }

  function DidAction(c: Core): (r: Did<()>)
    ensures r.core.settings == c.settings
  {
    Did(c, if c.db.account.None? then Err(Store(Cr.NotBound)) else Ok(()))
  }

  function ActOn(env: Env, c: Core, now: Time, x: Action): (r: Did<()>)
    ensures r.core.settings == c.settings
  {
    match x
    case Start(_, _, _, _) => StartAction(env, c, now, x)
    case Poll(_, _, _, _, _, _, _, _, _, _, _) =>
      var d := PollAction(env, c, now, x);
      Did(d.core, match d.result case Ok(_) => Ok(()) case Err(e) => Err(e))
    case Issue(_, _, _, _, _, _, _, _, _, _) => IssueAction(env, c, x)
    case Passwords(_, _, _, _, _, _) => PasswordsAction(env, c, x)
    case Revoke(_, _, _, _) => RevokeAction(env, c, x)
    case Login(_, _, _, _, _, _, _, _, _) => LoginAction(env, c, now, x)
    case Session(_, _, _, _, _, _) => SessionAction(env, c, x)
    case Refresh(_, _, _, _, _, _, _, _) => RefreshAction(env, c, x)
    case Logout(_, _, _) => LogoutAction(env, c, x)
    case Describe => DescribeAction(env, c)
    case DidDocument => DidAction(c)
  }

  /** One accepted request: expired logins and grants go first. */
  function Act(env: Env, c: Core, now: Time, x: Action): (r: Did<()>)
    ensures r.core.settings == c.settings
  {
    if !c.settings.enabled then Did(c, Err(Off)) else ActOn(env, Pruned(c, now), now, x)
  }
}
