/** What repeated polls of one login come to. */
module LoginPolling {
  import opened Ordered
  import opened Outcomes
  import opened Account
  import opened AccountRuns
  import opened NodeRuns
  import Syntax
  import Chain
  import Cr = Credentials
  import RateLimit

  /** What a pending login may become: a proof stays until the completion, and a completion stays. */
  predicate Later(p: Pending, q: Pending) {
    && q.challenge == p.challenge && q.pollHash == p.pollHash && (p.completion.Some? ==> q == p)
    && (p.proof.Some? ==> q.proof == p.proof || q.completion.Some?)
  }

  predicate PendingLater(c: Core, d: Core) {
    forall id :: id in d.pending ==> id in c.pending && Later(c.pending[id], d.pending[id])
  }

  lemma AuthorityLeaves(env: Env, c: Core, now: Time, a: Await<Chain.Answers>, w: Writes)
    ensures Authority(env, c, now, a, w).core.pending == c.pending
    ensures Authority(env, c, now, a, w).core.grants == c.grants || Authority(env, c, now, a, w).core.grants == map[]
  {
  }

  /** The login of this identifier turns into a grant by this action. */
  predicate Mints(env: Env, c: Core, now: Time, x: Action, id: Bytes) {
    && c.settings.enabled && x.Poll? && x.pollId == id && id in Pruned(c, now).pending
    && Pruned(c, now).pending[id].completion.None?
    && var r := PollAction(env, Pruned(c, now), now, x).result; r.Ok? && r.value.Complete?
  }

  lemma PollPending(env: Env, c: Core, now: Time, x: Action)
    requires x.Poll?
    ensures var d := PollAction(env, c, now, x);
            var minted := d.result.Ok? && d.result.value.Complete? && x.pollId in c.pending && c.pending[x.pollId].completion.None?;
            && PendingLater(c, d.core)
            && d.core.grants.Keys <= c.grants.Keys + (if minted then {env.hash(x.accountToken)} else {})
            && (minted ==> env.hash(x.accountToken) in d.core.grants && x.pollId in d.core.pending
                           && d.core.pending[x.pollId].completion == Some(d.result.value.completion)
                           && d.result.value.completion.accountToken == x.accountToken)
  {
    var s := PollRelay(env, c, x.pollId, x.token, now, x.status);
    if s.stage.Proceed? {
      VerifyPending(env, s.core, x.pollId, s.stage.proof, now, x);
    }
  }

  /** The reply names the account that was bound. */
  predicate NamesAccount(done: Completion, a: Cr.Account) {
    done.fid == a.fid && done.handle == a.identity.handle && done.serviceUrl == a.identity.serviceUrl
  }

  /** A poll that completes gives its login the completion, with a grant for it; no other does. */
  predicate Completes(env: Env, c: Core, id: Bytes, d: Did<Reply>, now: Time, accountToken: Bytes) {
    if d.result.Ok?
    then
      && d.result.value.Complete? && d.result.value.completion.accountToken == accountToken
      && (d.core.grants == c.grants[env.hash(accountToken) := now + GRANT_TTL] || d.core.grants == map[env.hash(accountToken) := now + GRANT_TTL])
      && d.core.grants[env.hash(accountToken)] == d.result.value.completion.expiresAt == now + GRANT_TTL
      && d.core.db.account.Some? && NamesAccount(d.result.value.completion, d.core.db.account.value.account)
      && id in c.pending && id in d.core.pending
      && d.core.pending[id] == c.pending[id].(proof := None, channel := [], completion := Some(d.result.value.completion))
    else d.core.grants == c.grants || d.core.grants == map[]
  }

  lemma AdmitPending(env: Env, c: Core, id: Bytes, proof: Chain.Proof, v: Chain.Verified, identity: Syntax.Identity,
                     now: Time, bindAt: Time, checkedAt: Time, w: Writes, key: Bytes, accountToken: Bytes)
    requires id in c.pending && c.pending[id].completion.None?
    ensures var d := Admit(env, c, id, proof, v, identity, now, bindAt, checkedAt, w, key, accountToken);
            PendingLater(c, d.core) && Completes(env, c, id, d, now, accountToken)
  {
  }

  /** A poll with a proof fails before it touches the store, or ends as its check's verdict is admitted. */
  lemma VerifyComes(env: Env, c: Core, id: Bytes, proof: Chain.Proof, now: Time, x: Action)
    requires x.Poll? && id in c.pending && env.identity(c.settings).Some?
    ensures var d := PollVerify(env, c, id, proof, now, x.verifyAt, x.a, x.expiryAt, x.bindAt, x.checkedAt, x.w, x.key, x.accountToken);
            var check := LoginCheck(env, env.identity(c.settings).value, proof, c.pending[id].challenge, x.verifyAt, x.a);
            || (d.result.Err? && (d.core == c || d.core == c.(pending := c.pending - {id})))
            || (check.Ok? && d == Admitted(env, c, id, proof, check.value, now, x))
  {
  }

  function Admitted(env: Env, c: Core, id: Bytes, proof: Chain.Proof, v: Chain.Verified, now: Time, x: Action): Did<Reply>
    requires x.Poll? && id in c.pending && env.identity(c.settings).Some?
  {
    var cleared := Supersede(c, env.FingerprintOf(v), x.w);
    if cleared.result.Err? then Did(cleared.core, Err(cleared.result.error))
    else Admit(env, cleared.core, id, proof, v, env.identity(c.settings).value, now, x.bindAt, x.checkedAt, x.w, x.key, x.accountToken)
  }

  lemma AdmittedPending(env: Env, c: Core, id: Bytes, proof: Chain.Proof, v: Chain.Verified, now: Time, x: Action)
    requires x.Poll? && id in c.pending && env.identity(c.settings).Some? && c.pending[id].completion.None?
    ensures var d := Admitted(env, c, id, proof, v, now, x);
            PendingLater(c, d.core) && Completes(env, c, id, d, now, x.accountToken)
  {
    var cleared := Supersede(c, env.FingerprintOf(v), x.w);
    AdmitPending(env, cleared.core, id, proof, v, env.identity(c.settings).value, now, x.bindAt, x.checkedAt, x.w, x.key, x.accountToken);
  }

  lemma DroppedPending(env: Env, c: Core, id: Bytes, d: Did<Reply>, now: Time, accountToken: Bytes)
    requires d.result.Err? && (d.core == c || d.core == c.(pending := c.pending - {id}))
    ensures PendingLater(c, d.core) && Completes(env, c, id, d, now, accountToken)
  {
  }

  lemma VerifyPending(env: Env, c: Core, id: Bytes, proof: Chain.Proof, now: Time, x: Action)
    requires x.Poll? && id in c.pending && env.identity(c.settings).Some? && c.pending[id].completion.None?
    ensures var d := PollVerify(env, c, id, proof, now, x.verifyAt, x.a, x.expiryAt, x.bindAt, x.checkedAt, x.w, x.key, x.accountToken);
            PendingLater(c, d.core) && Completes(env, c, id, d, now, x.accountToken)
  {
    var d := PollVerify(env, c, id, proof, now, x.verifyAt, x.a, x.expiryAt, x.bindAt, x.checkedAt, x.w, x.key, x.accountToken);
    var check := LoginCheck(env, env.identity(c.settings).value, proof, c.pending[id].challenge, x.verifyAt, x.a);
    VerifyComes(env, c, id, proof, now, x);
    if d.result.Err? && (d.core == c || d.core == c.(pending := c.pending - {id})) {
      DroppedPending(env, c, id, d, now, x.accountToken);
    } else {
      AdmittedPending(env, c, id, proof, check.value, now, x);
    }
  }

  /** The token of a completed login opens the password pages at once and for exactly ten minutes, as the
      reply says, as long as nothing takes the grant away. */
  lemma GrantLasts(env: Env, c: Core, now: Time, x: Action, later: Time)
    requires x.Poll? && Mints(env, c, now, x, x.pollId) && later >= now
    ensures var d := PollAction(env, Pruned(c, now), now, x);
            && d.result.value.completion.accountToken == x.accountToken
            && d.result.value.completion.expiresAt == now + 600
            && d.core.db.account.Some? && NamesAccount(d.result.value.completion, d.core.db.account.value.account)
            && (Granted(env, Act(env, c, now, x).core, x.accountToken, later) <==> later < now + 600)
  {
    var q := Pruned(c, now);
    var s := PollRelay(env, q, x.pollId, x.token, now, x.status);
    if s.stage.Proceed? {
      VerifyPending(env, s.core, x.pollId, s.stage.proof, now, x);
    }
  }

  /** The action neither moves a login nor adds a grant. */
  predicate Kept(c: Core, d: Core) {
    d.pending == c.pending && (d.grants == c.grants || d.grants == map[])
  }

  lemma CheckedKept(env: Env, c: Core, x: Action)
    requires x.Issue? || x.Passwords? || x.Session?
    ensures Kept(c, (if x.Issue? then IssueAction(env, c, x)
                     else if x.Passwords? then PasswordsAction(env, c, x) else SessionAction(env, c, x)).core)
  {
    AuthorityLeaves(env, c, x.authorityAt, x.a, x.w);
    if x.Issue? {
      IssueDoes(env, c, x);
    }
  }

  lemma SessionKept(env: Env, c: Core, now: Time, x: Action)
    requires x.Login? || x.Refresh?
    ensures Kept(c, (if x.Login? then LoginAction(env, c, now, x) else RefreshAction(env, c, x)).core)
  {
    if x.Login? {
      LoginDoes(env, c, now, x);
      AuthorityLeaves(env, c.(passwordTimes := RateLimit.AfterLimit(c.passwordTimes, now, 60, 20)), x.authorityAt, x.a, x.w);
    } else {
      RefreshDoes(env, c, x);
      AuthorityLeaves(env, c, x.authorityAt, x.a, x.w);
    }
  }

  lemma LocalKept(env: Env, c: Core, x: Action)
    requires x.Revoke? || x.Logout?
    ensures Kept(c, (if x.Revoke? then RevokeAction(env, c, x) else LogoutAction(env, c, x)).core)
  {
    if x.Revoke? {
      RevokeDoes(env, c, x);
    } else {
      LogoutDoes(env, c, x);
    }
  }

  /** What is left of an action's effect on the logins and grants after the expired ones are dropped. */
  lemma ActKept(env: Env, c: Core, now: Time, x: Action)
    requires !x.Start? && !x.Poll? && c.settings.enabled
    ensures Kept(Pruned(c, now), Act(env, c, now, x).core)
  {
    var q := Pruned(c, now);
    if x.Issue? || x.Passwords? || x.Session? {
      CheckedKept(env, q, x);
    } else if x.Login? || x.Refresh? {
      SessionKept(env, q, now, x);
    } else if x.Revoke? || x.Logout? {
      LocalKept(env, q, x);
    }
  }

  lemma StartPending(env: Env, c: Core, now: Time, x: Action)
    requires x.Start?
    ensures var d := StartAction(env, c, now, x).core;
            d.grants == c.grants && (d.pending == c.pending || (x.id in d.pending && d.pending == c.pending[x.id := d.pending[x.id]]))
  {
  }

  lemma PrunedPending(c: Core, now: Time)
    ensures PendingLater(c, Pruned(c, now)) && Pruned(c, now).grants.Keys <= c.grants.Keys
  {
  }

  /** One action leaves every pending login as it is or takes it further, and only a poll that
      completes its login adds a grant. */
  lemma ActPending(env: Env, c: Core, now: Time, x: Action)
    ensures var d := Act(env, c, now, x).core;
            && (forall id :: id in d.pending && !(x.Start? && x.id == id) ==> id in c.pending && Later(c.pending[id], d.pending[id]))
            && d.grants.Keys <= c.grants.Keys + (if x.Poll? && Mints(env, c, now, x, x.pollId) then {env.hash(x.accountToken)} else {})
            && (x.Poll? && Mints(env, c, now, x, x.pollId) ==>
                  env.hash(x.accountToken) in d.grants && x.pollId in d.pending && d.pending[x.pollId].completion.Some?)
  {
    var q := Pruned(c, now);
    PrunedPending(c, now);
    if c.settings.enabled {
      if x.Start? {
        StartPending(env, q, now, x);
      } else if x.Poll? {
        PollPending(env, q, now, x);
      } else {
        ActKept(env, c, now, x);
      }
    }
  }

  // ----- over runs -----

  /** No login is started under this identifier. */
  predicate NoStart(events: seq<Event>, id: Bytes) {
    forall i :: 0 <= i < |events| ==> events[i].Do? && events[i].action.Start? ==> events[i].action.id != id
  }

  /** The login has a proof or more, if it is still there. */
  predicate Settled(c: Core, id: Bytes) {
    id in c.pending ==> c.pending[id].proof.Some? || c.pending[id].completion.Some?
  }

  /** Once a proof is stored, what the relay says makes no difference to a poll. */
  lemma RelayNotRead(env: Env, c: Core, now: Time, x: Action, status: Await<Result<ChannelStatus, Chain.AuthError>>)
    requires x.Poll? && Settled(c, x.pollId)
    ensures Act(env, c, now, x.(status := status)) == Act(env, c, now, x)
  {
    var q := Pruned(c, now);
    assert PollRelay(env, q, x.pollId, x.token, now, status) == PollRelay(env, q, x.pollId, x.token, now, x.status);
  }

  /** A proof that the relay delivered is kept whatever becomes of the checks that follow, unless the
      login itself is dropped. */
  lemma ProofIsRetained(env: Env, c: Core, now: Time, x: Action)
    requires c.settings.enabled && x.Poll? && PollRelay(env, Pruned(c, now), x.pollId, x.token, now, x.status).stage.Proceed?
    ensures Settled(Act(env, c, now, x).core, x.pollId)
  {
    var s := PollRelay(env, Pruned(c, now), x.pollId, x.token, now, x.status);
    VerifyPending(env, s.core, x.pollId, s.stage.proof, now, x);
  }

  lemma NextPending(p: Policy, n: Node, e: Event, id: Bytes)
    requires NoStart([e], id) && Next(p, n, e).Some?
    ensures var d := Next(p, n, e).value.core;
            id in d.pending ==> id in n.core.pending && Later(n.core.pending[id], d.pending[id])
  {
    if e.Do? {
      assert [e][0] == e;
      ActPending(p.env, n.core, e.now, e.action);
    }
  }

  lemma {:induction false} SettledForever(p: Policy, n: Node, events: seq<Event>, id: Bytes)
    requires NoStart(events, id) && Settled(n.core, id) && Run(p, n, events).Some?
    ensures Settled(Run(p, n, events).value.core, id)
    decreases |events|
  {
    if events != [] {
      NextPending(p, n, events[0], id);
      SettledForever(p, Next(p, n, events[0]).value, events[1..], id);
    }
  }

  /** How many grants the login of this identifier is turned into. */
  function Minted(p: Policy, n: Node, events: seq<Event>, id: Bytes): nat
    decreases |events|
  {
    if events == [] || Next(p, n, events[0]).None? then 0
    else
      (if events[0].Do? && Mints(p.env, n.core, events[0].now, events[0].action, id) then 1 else 0)
      + Minted(p, Next(p, n, events[0]).value, events[1..], id)
  }

  /** The login can no longer be turned into a grant. */
  predicate Spent(c: Core, id: Bytes) {
    id in c.pending ==> c.pending[id].completion.Some?
  }

  lemma {:induction false} SpentMintsNothing(p: Policy, n: Node, events: seq<Event>, id: Bytes)
    requires NoStart(events, id) && Spent(n.core, id)
    ensures Minted(p, n, events, id) == 0
    decreases |events|
  {
    if events != [] && Next(p, n, events[0]).Some? {
      NextPending(p, n, events[0], id);
      SpentMintsNothing(p, Next(p, n, events[0]).value, events[1..], id);
    }
  }

  /** Each login is turned into at most one grant, whatever is interleaved with its polls. */
  lemma {:induction false} AtMostOneGrant(p: Policy, n: Node, events: seq<Event>, id: Bytes)
    requires NoStart(events, id)
    ensures Minted(p, n, events, id) <= 1
    decreases |events|
  {
    if events != [] && Next(p, n, events[0]).Some? {
      var m := Next(p, n, events[0]).value;
      if events[0].Do? && Mints(p.env, n.core, events[0].now, events[0].action, id) {
        ActPending(p.env, n.core, events[0].now, events[0].action);
        SpentMintsNothing(p, m, events[1..], id);
      } else {
        AtMostOneGrant(p, m, events[1..], id);
      }
    }
  }

  lemma {:induction false} CompletionStays(p: Policy, n: Node, events: seq<Event>, id: Bytes)
    requires NoStart(events, id) && id in n.core.pending && n.core.pending[id].completion.Some?
    requires Run(p, n, events).Some? && id in Run(p, n, events).value.core.pending
    ensures Run(p, n, events).value.core.pending[id] == n.core.pending[id]
    decreases |events|
  {
    if events != [] {
      var m := Next(p, n, events[0]).value;
      NextPending(p, n, events[0], id);
      if id !in m.core.pending {
        GoneForever(p, m, events[1..], id);
      }
      CompletionStays(p, m, events[1..], id);
    }
  }

  lemma {:induction false} GoneForever(p: Policy, n: Node, events: seq<Event>, id: Bytes)
    requires NoStart(events, id) && id !in n.core.pending && Run(p, n, events).Some?
    ensures id !in Run(p, n, events).value.core.pending
    decreases |events|
  {
    if events != [] {
      NextPending(p, n, events[0], id);
      GoneForever(p, Next(p, n, events[0]).value, events[1..], id);
    }
  }

  /** As long as a completed login is kept, each poll with its token returns the same completion and
      changes nothing. */
  lemma SameCompletion(p: Policy, n: Node, events: seq<Event>, now: Time, x: Action)
    requires x.Poll? && NoStart(events, x.pollId) && x.pollId in n.core.pending && n.core.pending[x.pollId].completion.Some?
    requires Run(p, n, events).Some?
    requires var q := Pruned(Run(p, n, events).value.core, now);
             x.pollId in q.pending && p.env.identity(q.settings).Some? && p.env.hash(x.token) == q.pending[x.pollId].pollHash
    ensures var q := Pruned(Run(p, n, events).value.core, now);
            PollAction(p.env, q, now, x) == Did(q, Ok(Complete(n.core.pending[x.pollId].completion.value)))
  {
    CompletionStays(p, n, events, x.pollId);
  }
}
