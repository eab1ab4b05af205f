/** The store operations that an action carries out, one after the other, and where a crash may cut them. */
module ActionSteps {
  import opened Ordered
  import opened Outcomes
  import opened Account
  import opened AccountRuns
  import opened AccountEvidence
  import Syntax
  import Chain
  import RateLimit
  import Cr = Credentials
  import Runs = CredentialRuns

  type Steps = seq<Runs.Step>

  // ----- the store operations of one action -----

  function AuthoritySteps(env: Env, c: Core, now: Time, a: Await<Chain.Answers>, w: Writes): Steps {
    var d := Authority(env, c, now, a, w).core;
    if d.db == c.db then []
    else if d.db == Cr.InvalidateAuthority(c.db).db || d.db.evidence.None? then [Runs.Invalidate]
    else [Runs.Record(d.db.evidence.value)]
  }

  /** A check of the authority, and then one operation if the action succeeded. */
  function CheckedSteps(env: Env, c: Core, now: Time, a: Await<Chain.Answers>, w: Writes, done: Did<()>, step: Runs.Step): Steps {
    if done.core.db == c.db && done.result.Err? then []
    else AuthoritySteps(env, c, now, a, w) + if done.result.Ok? then [step] else []
  }

  function VerifySteps(env: Env, c: Core, id: Bytes, proof: Chain.Proof, now: Time, x: Action): Steps
    requires x.Poll? && id in c.pending && env.identity(c.settings).Some?
  {
    var d := PollVerify(env, c, id, proof, now, x.verifyAt, x.a, x.expiryAt, x.bindAt, x.checkedAt, x.w, x.key, x.accountToken).core;
    var identity := env.identity(c.settings).value;
    var check := LoginCheck(env, identity, proof, c.pending[id].challenge, x.verifyAt, x.a);
    if d.db == c.db || check.Err? then []
    else
      var authority := env.FingerprintOf(check.value);
      var cleared := Supersede(c, authority, x.w).core.db;
      var first := if cleared == c.db then [] else [Runs.Invalidate];
      var bind := Runs.Bind(check.value.fid, authority, identity, x.bindAt, x.key);
      if d.db == cleared then first
      else if d.db == Runs.TableStep(env.store, cleared, bind).db || d.db.evidence.None? then first + [bind]
      else first + [bind, Runs.Record(d.db.evidence.value)]
  }

  function PollSteps(env: Env, c: Core, now: Time, x: Action): Steps
    requires x.Poll?
  {
    var s := PollRelay(env, c, x.pollId, x.token, now, x.status);
    match s.stage
    case Over(_) => []
    case Proceed(proof) => VerifySteps(env, s.core, x.pollId, proof, now, x)
  }

  function Limited(c: Core, now: Time): Core {
    c.(passwordTimes := RateLimit.AfterLimit(c.passwordTimes, now, 60, 20))
  }

  function OnSteps(env: Env, c: Core, now: Time, x: Action): Steps {
    if x.Poll? then PollSteps(env, c, now, x)
    else if x.Issue? then CheckedSteps(env, c, x.authorityAt, x.a, x.w, IssueAction(env, c, x), IssueStep(x))
    else if x.Login? then CheckedSteps(env, Limited(c, now), x.authorityAt, x.a, x.w, LoginAction(env, c, now, x), LoginStep(x))
    else if x.Refresh? then CheckedSteps(env, c, x.authorityAt, x.a, x.w, RefreshAction(env, c, x), RotateStep(x))
    else if x.Revoke? && RevokeAction(env, c, x).result.Ok? then [Runs.Revoke(x.name)]
    else if x.Logout? && LogoutAction(env, c, x).result.Ok? then [Runs.Logout(x.refresh, x.logoutAt)]
    else if x.Session? && SessionAction(env, c, x).core.db != c.db then AuthoritySteps(env, c, x.authorityAt, x.a, x.w)
    else if x.Passwords? && PasswordsAction(env, c, x).core.db != c.db then AuthoritySteps(env, c, x.authorityAt, x.a, x.w)
    else []
  }

  function ActSteps(env: Env, c: Core, now: Time, x: Action): Steps {
    if !c.settings.enabled then [] else OnSteps(env, Pruned(c, now), now, x)
  }

  /** The store operations alone, on the tables. */
  function Tables(env: Cr.Env, db: Cr.Tables, steps: Steps): Cr.Tables
    decreases |steps|
  {
    if steps == [] then db else Tables(env, Runs.TableStep(env, db, steps[0]).db, steps[1..])
  }

  lemma {:induction false} TablesOfRun(env: Cr.Env, w: Runs.World, steps: Steps)
    ensures Runs.Run(env, w, steps).db == Tables(env, w.db, steps)
    decreases |steps|
  {
    if steps != [] {
      TablesOfRun(env, Runs.Next(env, w, steps[0]), steps[1..]);
    }
  }

  lemma {:induction false} TablesThen(env: Cr.Env, db: Cr.Tables, first: Steps, rest: Steps)
    ensures Tables(env, db, first + rest) == Tables(env, Tables(env, db, first), rest)
    decreases |first|
  {
    if first == [] {
      assert first + rest == rest;
    } else {
      assert (first + rest)[1..] == first[1..] + rest;
      TablesThen(env, Runs.TableStep(env, db, first[0]).db, first[1..], rest);
    }
  }

  lemma TablesOne(env: Cr.Env, db: Cr.Tables, step: Runs.Step)
    ensures Tables(env, db, [step]) == Runs.TableStep(env, db, step).db
  {
    assert [step][1..] == [];
  }

  lemma AuthorityTables(env: Env, c: Core, now: Time, a: Await<Chain.Answers>, w: Writes)
    ensures Tables(env.store, c.db, AuthoritySteps(env, c, now, a, w)) == Authority(env, c, now, a, w).core.db
  {
    var d := Authority(env, c, now, a, w).core;
    TablesOne(env.store, c.db, Runs.Invalidate);
    if d.db.evidence.Some? {
      TablesOne(env.store, c.db, Runs.Record(d.db.evidence.value));
    }
  }

  lemma CheckedTables(env: Env, c: Core, now: Time, a: Await<Chain.Answers>, w: Writes, done: Did<()>, step: Runs.Step)
    requires var checked := Authority(env, c, now, a, w).core.db;
             var o := Runs.TableStep(env.store, checked, step);
             if done.result.Ok? then done.core.db == o.db else done.core.db == c.db || done.core.db == checked
    ensures Tables(env.store, c.db, CheckedSteps(env, c, now, a, w, done, step)) == done.core.db
  {
    AuthorityTables(env, c, now, a, w);
    var first := AuthoritySteps(env, c, now, a, w);
    TablesThen(env.store, c.db, first, [step]);
    TablesOne(env.store, Authority(env, c, now, a, w).core.db, step);
    assert first + [] == first;
  }

  lemma AdmitTables(env: Env, c: Core, id: Bytes, proof: Chain.Proof, v: Chain.Verified, identity: Syntax.Identity,
                    now: Time, bindAt: Time, checkedAt: Time, w: Writes, key: Bytes, accountToken: Bytes)
    requires id in c.pending
    ensures var d := Admit(env, c, id, proof, v, identity, now, bindAt, checkedAt, w, key, accountToken).core.db;
            var bound := Runs.TableStep(env.store, c.db, Runs.Bind(v.fid, env.FingerprintOf(v), identity, bindAt, key)).db;
            || d == c.db || d == bound
            || (d.evidence.Some? && d == Runs.TableStep(env.store, bound, Runs.Record(d.evidence.value)).db)
  {
  }

  lemma VerifyTables(env: Env, c: Core, id: Bytes, proof: Chain.Proof, now: Time, x: Action)
    requires x.Poll? && id in c.pending && env.identity(c.settings).Some?
    ensures Tables(env.store, c.db, VerifySteps(env, c, id, proof, now, x))
         == PollVerify(env, c, id, proof, now, x.verifyAt, x.a, x.expiryAt, x.bindAt, x.checkedAt, x.w, x.key, x.accountToken).core.db
  {
    var d := PollVerify(env, c, id, proof, now, x.verifyAt, x.a, x.expiryAt, x.bindAt, x.checkedAt, x.w, x.key, x.accountToken).core;
    var identity := env.identity(c.settings).value;
    var check := LoginCheck(env, identity, proof, c.pending[id].challenge, x.verifyAt, x.a);
    VerifyDoes(env, c, id, proof, now, x.verifyAt, x.a, x.expiryAt, x.bindAt, x.checkedAt, x.w, x.key, x.accountToken);
    if d.db != c.db && check.Ok? {
      var cleared := Supersede(c, env.FingerprintOf(check.value), x.w);
      if cleared.result.Ok? {
        AdmitTables(env, cleared.core, id, proof, check.value, identity, now, x.bindAt, x.checkedAt, x.w, x.key, x.accountToken);
      }
      var bind := Runs.Bind(check.value.fid, env.FingerprintOf(check.value), identity, x.bindAt, x.key);
      ThreeSteps(env.store, c.db, cleared.core.db, bind, d.db);
    }
  }

  /** An invalidation if there was one, a binding if there was one, and a record if there was one. */
  lemma ThreeSteps(env: Cr.Env, before: Cr.Tables, cleared: Cr.Tables, bind: Runs.Step, after: Cr.Tables)
    requires cleared == before || cleared == Cr.InvalidateAuthority(before).db
    requires var bound := Runs.TableStep(env, cleared, bind).db;
             || after == cleared || after == bound
             || (after.evidence.Some? && after == Runs.TableStep(env, bound, Runs.Record(after.evidence.value)).db)
    ensures var first := if cleared == before then [] else [Runs.Invalidate];
            Tables(env, before, if after == cleared then first
                                else if after == Runs.TableStep(env, cleared, bind).db || after.evidence.None? then first + [bind]
                                else first + [bind, Runs.Record(after.evidence.value)]) == after
  {
    var first := if cleared == before then [] else [Runs.Invalidate];
    TablesOne(env, before, Runs.Invalidate);
    assert Tables(env, before, first) == cleared;
    TablesOne(env, cleared, bind);
    TablesThen(env, before, first, [bind]);
    if after.evidence.Some? {
      var record := Runs.Record(after.evidence.value);
      TablesThen(env, before, first, [bind, record]);
      TablesThen(env, cleared, [bind], [record]);
      assert [bind] + [record] == [bind, record];
      TablesOne(env, Runs.TableStep(env, cleared, bind).db, record);
    }
  }

  lemma PollTables(env: Env, c: Core, now: Time, x: Action)
    requires x.Poll?
    ensures Tables(env.store, c.db, PollSteps(env, c, now, x)) == PollAction(env, c, now, x).core.db
  {
    var s := PollRelay(env, c, x.pollId, x.token, now, x.status);
    RelayLeaves(env, c, x.pollId, x.token, now, x.status);
    if s.stage.Proceed? {
      VerifyTables(env, s.core, x.pollId, s.stage.proof, now, x);
    }
  }

  lemma IssueEnds(env: Env, c: Core, x: Action)
    requires x.Issue?
    ensures var checked := Authority(env, c, x.authorityAt, x.a, x.w).core.db;
            var d := IssueAction(env, c, x);
            if d.result.Ok? then d.core.db == Runs.TableStep(env.store, checked, IssueStep(x)).db else d.core.db == c.db || d.core.db == checked
  {
  }

  lemma IssueTables(env: Env, c: Core, now: Time, x: Action)
    requires x.Issue?
    ensures Tables(env.store, c.db, OnSteps(env, c, now, x)) == IssueAction(env, c, x).core.db
  {
    IssueEnds(env, c, x);
    CheckedTables(env, c, x.authorityAt, x.a, x.w, IssueAction(env, c, x), IssueStep(x));
  }

  lemma LoginEnds(env: Env, c: Core, now: Time, x: Action)
    requires x.Login?
    ensures var checked := Authority(env, Limited(c, now), x.authorityAt, x.a, x.w).core.db;
            var d := LoginAction(env, c, now, x);
            if d.result.Ok? then d.core.db == Runs.TableStep(env.store, checked, LoginStep(x)).db else d.core.db == c.db || d.core.db == checked
  {
  }

  lemma LoginTables(env: Env, c: Core, now: Time, x: Action)
    requires x.Login?
    ensures Tables(env.store, c.db, OnSteps(env, c, now, x)) == LoginAction(env, c, now, x).core.db
  {
    LoginEnds(env, c, now, x);
    CheckedTables(env, Limited(c, now), x.authorityAt, x.a, x.w, LoginAction(env, c, now, x), LoginStep(x));
  }

  lemma RefreshEnds(env: Env, c: Core, x: Action)
    requires x.Refresh?
    ensures var checked := Authority(env, c, x.authorityAt, x.a, x.w).core.db;
            var d := RefreshAction(env, c, x);
            if d.result.Ok? then d.core.db == Runs.TableStep(env.store, checked, RotateStep(x)).db else d.core.db == c.db || d.core.db == checked
  {
  }

  lemma RefreshTables(env: Env, c: Core, now: Time, x: Action)
    requires x.Refresh?
    ensures Tables(env.store, c.db, OnSteps(env, c, now, x)) == RefreshAction(env, c, x).core.db
  {
    RefreshEnds(env, c, x);
    CheckedTables(env, c, x.authorityAt, x.a, x.w, RefreshAction(env, c, x), RotateStep(x));
  }

  lemma RevokeTables(env: Env, c: Core, now: Time, x: Action)
    requires x.Revoke?
    ensures Tables(env.store, c.db, OnSteps(env, c, now, x)) == RevokeAction(env, c, x).core.db
  {
    RevokeDoes(env, c, x);
    TablesOne(env.store, c.db, Runs.Revoke(x.name));
  }

  lemma LogoutTables(env: Env, c: Core, now: Time, x: Action)
    requires x.Logout?
    ensures Tables(env.store, c.db, OnSteps(env, c, now, x)) == LogoutAction(env, c, x).core.db
  {
    LogoutDoes(env, c, x);
    TablesOne(env.store, c.db, Runs.Logout(x.refresh, x.logoutAt));
  }

  lemma ReadTables(env: Env, c: Core, now: Time, x: Action)
    requires x.Session? || x.Passwords?
    ensures Tables(env.store, c.db, OnSteps(env, c, now, x)) == ActOn(env, c, now, x).core.db
  {
    AuthorityTables(env, c, x.authorityAt, x.a, x.w);
  }

  /** What an action leaves in the tables is what its store operations leave. */
  lemma ActTables(env: Env, c: Core, now: Time, x: Action)
    ensures Tables(env.store, c.db, ActSteps(env, c, now, x)) == Act(env, c, now, x).core.db
  {
    var q := Pruned(c, now);
    if x.Poll? {
      PollTables(env, q, now, x);
    } else if x.Issue? {
      IssueTables(env, q, now, x);
    } else if x.Login? {
      LoginTables(env, q, now, x);
    } else if x.Refresh? {
      RefreshTables(env, q, now, x);
    } else if x.Session? || x.Passwords? {
      ReadTables(env, q, now, x);
    } else if x.Revoke? {
      RevokeTables(env, q, now, x);
    } else if x.Logout? {
      LogoutTables(env, q, now, x);
    }
  }
}
