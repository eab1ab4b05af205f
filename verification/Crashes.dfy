/** What a crash in the middle of an action leaves on disk. */
module Crashes {
  import opened Ordered
  import opened Outcomes
  import opened Account
  import opened AccountRuns
  import opened AccountEvidence
  import opened ActionSteps
  import Syntax
  import Chain
  import Settings
  import Cr = Credentials
  import Runs = CredentialRuns

  /** The durable part of a sound core. */
  ghost predicate TablesFit(env: Env, s: Settings.AccountSettings, db: Cr.Tables) {
    && Names(env, s, db) && Runs.TablesSound(env.store, db) && EvidenceFits(env, s, db)
    && (db.passwords != [] ==> HasEvidence(db))
  }

  lemma SoundFits(env: Env, c: Core)
    requires CoreSound(env, c)
    ensures TablesFit(env, c.settings, c.db)
  {
  }

  /** The tables after the first `k` store operations of an action. */
  function CutTables(env: Env, db: Cr.Tables, steps: Steps, k: nat): Cr.Tables
    requires k <= |steps|
  {
    Tables(env.store, db, steps[..k])
  }

  lemma CutAtEnds(env: Env, db: Cr.Tables, steps: Steps)
    ensures CutTables(env, db, steps, 0) == db
    ensures CutTables(env, db, steps, |steps|) == Tables(env.store, db, steps)
  {
    assert steps[..|steps|] == steps;
  }

  /** A check followed by one operation is cut before the check's write, after it, or not at all. */
  lemma CheckedCut(env: Env, c: Core, now: Time, a: Await<Chain.Answers>, w: Writes, done: Did<()>, step: Runs.Step, k: nat)
    requires var checked := Authority(env, c, now, a, w).core.db;
             var o := Runs.TableStep(env.store, checked, step);
             if done.result.Ok? then done.core.db == o.db else done.core.db == c.db || done.core.db == checked
    requires k <= |CheckedSteps(env, c, now, a, w, done, step)|
    ensures var cut := CutTables(env, c.db, CheckedSteps(env, c, now, a, w, done, step), k);
            cut == c.db || cut == Authority(env, c, now, a, w).core.db || cut == done.core.db
  {
    var first := AuthoritySteps(env, c, now, a, w);
    var steps := CheckedSteps(env, c, now, a, w, done, step);
    AuthorityTables(env, c, now, a, w);
    CheckedTables(env, c, now, a, w, done, step);
    CutAtEnds(env, c.db, steps);
    if 0 < k < |steps| {
      assert steps[..k] == first;
    }
  }

  /** Inside, a poll with a proof is cut after it took the old authority's credentials away, or after it
      bound the account. */
  lemma InnerCut(env: Env, c: Core, id: Bytes, proof: Chain.Proof, now: Time, x: Action, k: nat)
    requires x.Poll? && id in c.pending && env.identity(c.settings).Some?
    requires 0 < k < |VerifySteps(env, c, id, proof, now, x)|
    ensures var identity := env.identity(c.settings).value;
            var check := LoginCheck(env, identity, proof, c.pending[id].challenge, x.verifyAt, x.a);
            check.Ok? && InnerTables(env, c, id, proof, now, x, check.value, CutTables(env, c.db, VerifySteps(env, c, id, proof, now, x), k))
  {
    var steps := VerifySteps(env, c, id, proof, now, x);
    var identity := env.identity(c.settings).value;
    var v := LoginCheck(env, identity, proof, c.pending[id].challenge, x.verifyAt, x.a).value;
    var cleared := Supersede(c, env.FingerprintOf(v), x.w).core.db;
    var bind := Runs.Bind(v.fid, env.FingerprintOf(v), identity, x.bindAt, x.key);
    var first: Steps := if cleared == c.db then [] else [Runs.Invalidate];
    TablesOne(env.store, c.db, Runs.Invalidate);
    TablesOne(env.store, cleared, bind);
    TablesThen(env.store, c.db, first, [bind]);
    assert steps[..k] == first || steps[..k] == first + [bind];
  }

  /** The poll went on to write, and these are the tables after its first or its second operation. */
  predicate InnerTables(env: Env, c: Core, id: Bytes, proof: Chain.Proof, now: Time, x: Action, v: Chain.Verified, cut: Cr.Tables)
    requires x.Poll? && id in c.pending && env.identity(c.settings).Some?
  {
    var d := PollVerify(env, c, id, proof, now, x.verifyAt, x.a, x.expiryAt, x.bindAt, x.checkedAt, x.w, x.key, x.accountToken).core;
    var cleared := Supersede(c, env.FingerprintOf(v), x.w).core.db;
    var bind := Runs.Bind(v.fid, env.FingerprintOf(v), env.identity(c.settings).value, x.bindAt, x.key);
    d.db != c.db && (cut == cleared || (d.db != cleared && cut == Runs.TableStep(env.store, cleared, bind).db))
  }

  /** So a crash cuts it there, or before its writes, or after them. */
  lemma VerifyCut(env: Env, c: Core, id: Bytes, proof: Chain.Proof, now: Time, x: Action, k: nat)
    requires x.Poll? && id in c.pending && env.identity(c.settings).Some?
    requires k <= |VerifySteps(env, c, id, proof, now, x)|
    ensures var cut := CutTables(env, c.db, VerifySteps(env, c, id, proof, now, x), k);
            var d := PollVerify(env, c, id, proof, now, x.verifyAt, x.a, x.expiryAt, x.bindAt, x.checkedAt, x.w, x.key, x.accountToken).core;
            var check := LoginCheck(env, env.identity(c.settings).value, proof, c.pending[id].challenge, x.verifyAt, x.a);
            cut == c.db || cut == d.db || (check.Ok? && InnerTables(env, c, id, proof, now, x, check.value, cut))
  {
    var steps := VerifySteps(env, c, id, proof, now, x);
    VerifyTables(env, c, id, proof, now, x);
    CutAtEnds(env, c.db, steps);
    if 0 < k < |steps| {
      InnerCut(env, c, id, proof, now, x, k);
    }
  }

  // ----- the tables fit at every cut -----

  lemma CheckedCutFits(env: Env, c: Core, now: Time, a: Await<Chain.Answers>, w: Writes, done: Did<()>, step: Runs.Step, k: nat)
    requires env.Lawful() && CoreSound(env, c) && CoreSound(env, done.core) && done.core.settings == c.settings
    requires Follows(env, c.db, done.core.db, Seen(a, now), StepExcuse(env, step))
    requires var checked := Authority(env, c, now, a, w).core.db;
             var o := Runs.TableStep(env.store, checked, step);
             if done.result.Ok? then done.core.db == o.db else done.core.db == c.db || done.core.db == checked
    requires k <= |CheckedSteps(env, c, now, a, w, done, step)|
    ensures var cut := CutTables(env, c.db, CheckedSteps(env, c, now, a, w, done, step), k);
            TablesFit(env, c.settings, cut) && Follows(env, c.db, cut, Seen(a, now), StepExcuse(env, step))
  {
    CheckedCut(env, c, now, a, w, done, step, k);
    AuthorityKeeps(env, c, now, a, w);
    AuthorityFollows(env, c, now, a, w);
    ExcusesOnlyHelp(env, c.db, Authority(env, c, now, a, w).core.db, Seen(a, now), StepExcuse(env, step));
    SelfFollows(env, c.db, Seen(a, now), StepExcuse(env, step));
  }

  /** Binding over sound tables: nothing but the account row changes. */
  lemma BindStep(env: Env, db: Cr.Tables, v: Chain.Verified, identity: Syntax.Identity, bindAt: Time, key: Bytes)
    ensures var after := Runs.TableStep(env.store, db, Runs.Bind(v.fid, env.FingerprintOf(v), identity, bindAt, key)).db;
            && after == Cr.BindVerified(env.store, db, v.fid, env.FingerprintOf(v), identity, bindAt, key).db
            && SameAccount(db, after) && after.passwords == db.passwords
            && after.sessions == db.sessions && after.evidence == db.evidence
            && (Cr.EnabledAccount(db).Ok? ==> after.account == db.account)
  {
  }

  lemma VerifyCutFits(env: Env, c: Core, id: Bytes, proof: Chain.Proof, now: Time, x: Action, k: nat)
    requires env.Lawful() && CoreSound(env, c) && x.Poll? && id in c.pending && env.identity(c.settings).Some?
    requires k <= |VerifySteps(env, c, id, proof, now, x)|
    ensures TablesFit(env, c.settings, CutTables(env, c.db, VerifySteps(env, c, id, proof, now, x), k))
    ensures Follows(env, c.db, CutTables(env, c.db, VerifySteps(env, c, id, proof, now, x), k), Seen(x.a, x.verifyAt), NoExcuse)
  {
    var cut := CutTables(env, c.db, VerifySteps(env, c, id, proof, now, x), k);
    VerifyCut(env, c, id, proof, now, x, k);
    VerifyKeeps(env, c, id, proof, now, x.verifyAt, x.a, x.expiryAt, x.bindAt, x.checkedAt, x.w, x.key, x.accountToken);
    VerifyFollows(env, c, id, proof, now, x.verifyAt, x.a, x.expiryAt, x.bindAt, x.checkedAt, x.w, x.key, x.accountToken);
    SelfFollows(env, c.db, Seen(x.a, x.verifyAt), NoExcuse);
    var d := PollVerify(env, c, id, proof, now, x.verifyAt, x.a, x.expiryAt, x.bindAt, x.checkedAt, x.w, x.key, x.accountToken).core;
    if cut != c.db && cut != d.db {
      InnerCutFits(env, c, id, proof, now, x, cut);
    }
  }

  lemma InnerCutFits(env: Env, c: Core, id: Bytes, proof: Chain.Proof, now: Time, x: Action, cut: Cr.Tables)
    requires env.Lawful() && CoreSound(env, c) && x.Poll? && id in c.pending && env.identity(c.settings).Some?
    requires var check := LoginCheck(env, env.identity(c.settings).value, proof, c.pending[id].challenge, x.verifyAt, x.a);
             check.Ok? && InnerTables(env, c, id, proof, now, x, check.value, cut)
    ensures TablesFit(env, c.settings, cut) && Follows(env, c.db, cut, Seen(x.a, x.verifyAt), NoExcuse)
  {
    var v := LoginCheck(env, env.identity(c.settings).value, proof, c.pending[id].challenge, x.verifyAt, x.a).value;
    VerifyDoes(env, c, id, proof, now, x.verifyAt, x.a, x.expiryAt, x.bindAt, x.checkedAt, x.w, x.key, x.accountToken);
    CheckedLogin(env, env.identity(c.settings).value, proof, c.pending[id].challenge, x.verifyAt, x.a);
    if cut == Supersede(c, env.FingerprintOf(v), x.w).core.db {
      ClearedFits(env, c, v, x.w);
    } else {
      ReboundFits(env, c, v, x);
    }
  }

  lemma ClearedFits(env: Env, c: Core, v: Chain.Verified, w: Writes)
    requires CoreSound(env, c) && (Held(env, c.db).Some? ==> !BehindEvidence(Held(env, c.db).value, v))
    ensures var cleared := Supersede(c, env.FingerprintOf(v), w).core;
            && TablesFit(env, c.settings, cleared.db)
            && Follows(env, c.db, cleared.db, Some(Chain.Block(v.checkedBlock, v.blockHash)), NoExcuse)
  {
    var cleared := Supersede(c, env.FingerprintOf(v), w).core;
    SupersedeKeeps(env, c, env.FingerprintOf(v), w);
    SoundFits(env, cleared);
    SettledLogin(env, c.db, cleared.db, cleared.db, v);
  }

  lemma ReboundFits(env: Env, c: Core, v: Chain.Verified, x: Action)
    requires CoreSound(env, c) && x.Poll? && env.identity(c.settings).Some? && c.settings.allowedFid == Some(v.fid)
    requires Held(env, c.db).Some? ==> !BehindEvidence(Held(env, c.db).value, v)
    requires Supersede(c, env.FingerprintOf(v), x.w).result.Ok?
    ensures var cleared := Supersede(c, env.FingerprintOf(v), x.w).core;
            var identity := env.identity(c.settings).value;
            var cut := Runs.TableStep(env.store, cleared.db, Runs.Bind(v.fid, env.FingerprintOf(v), identity, x.bindAt, x.key)).db;
            TablesFit(env, c.settings, cut) && Follows(env, c.db, cut, Some(Chain.Block(v.checkedBlock, v.blockHash)), NoExcuse)
  {
    var cleared := Supersede(c, env.FingerprintOf(v), x.w).core;
    var identity := env.identity(c.settings).value;
    var cut := Runs.TableStep(env.store, cleared.db, Runs.Bind(v.fid, env.FingerprintOf(v), identity, x.bindAt, x.key)).db;
    SupersedeKeeps(env, c, env.FingerprintOf(v), x.w);
    BindStep(env, cleared.db, v, identity, x.bindAt, x.key);
    SettledLogin(env, c.db, cleared.db, cut, v);
    BoundFits(env, cleared, v, identity, x.bindAt, x.key);
  }

  lemma BoundFits(env: Env, c: Core, v: Chain.Verified, identity: Syntax.Identity, bindAt: Time, key: Bytes)
    requires CoreSound(env, c) && env.identity(c.settings) == Some(identity) && c.settings.allowedFid == Some(v.fid)
    requires c.db.account.None? || c.db.account.value.account.authority == env.FingerprintOf(v) || Cr.EnabledAccount(c.db).Err?
    ensures TablesFit(env, c.settings, Cr.BindVerified(env.store, c.db, v.fid, env.FingerprintOf(v), identity, bindAt, key).db)
  {
    if Cr.BindVerified(env.store, c.db, v.fid, env.FingerprintOf(v), identity, bindAt, key).result.Ok? {
      BoundSound(env, c, v, identity, bindAt, key);
    }
  }

  /** What an action left on disk fits, and follows from what was there. */
  ghost predicate Fits(env: Env, c: Core, x: Action, cut: Cr.Tables) {
    TablesFit(env, c.settings, cut) && Follows(env, c.db, cut, SeenBy(x), ExcuseOf(env, x))
  }

  lemma PollCutFits(env: Env, c: Core, now: Time, x: Action, k: nat)
    requires env.Lawful() && CoreSound(env, c) && x.Poll? && k <= |PollSteps(env, c, now, x)|
    ensures Fits(env, c, x, CutTables(env, c.db, PollSteps(env, c, now, x), k))
  {
    var s := PollRelay(env, c, x.pollId, x.token, now, x.status);
    RelayKeeps(env, c, x.pollId, x.token, now, x.status);
    if s.stage.Proceed? {
      VerifyCutFits(env, s.core, x.pollId, s.stage.proof, now, x, k);
    } else {
      CutAtEnds(env, c.db, []);
      SelfFollows(env, c.db, SeenBy(x), NoExcuse);
    }
  }

  /** A check and one operation, as the outcome `done` has it. `from` is the core after its rate limit. */
  lemma DoneCutFits(env: Env, c: Core, from: Core, x: Action, step: Runs.Step, done: Did<()>, steps: Steps, k: nat)
    requires env.Lawful() && CoreSound(env, from) && from == c.(passwordTimes := from.passwordTimes)
    requires (x.Issue? || x.Login? || x.Refresh?) && ExcuseOf(env, x) == StepExcuse(env, step)
    requires k <= |steps| && steps == CheckedSteps(env, from, x.authorityAt, x.a, x.w, done, step)
    requires CoreSound(env, done.core) && done.core.settings == c.settings
    requires Follows(env, c.db, done.core.db, SeenBy(x), ExcuseOf(env, x))
    requires var checked := Authority(env, from, x.authorityAt, x.a, x.w).core.db;
             var o := Runs.TableStep(env.store, checked, step);
             if done.result.Ok? then done.core.db == o.db else done.core.db == c.db || done.core.db == checked
    ensures Fits(env, c, x, CutTables(env, c.db, steps, k))
  {
    CheckedCutFits(env, from, x.authorityAt, x.a, x.w, done, step, k);
  }

  lemma IssueCutFits(env: Env, c: Core, x: Action, steps: Steps, k: nat)
    requires env.Lawful() && CoreSound(env, c) && x.Issue? && k <= |steps|
    requires steps == CheckedSteps(env, c, x.authorityAt, x.a, x.w, IssueAction(env, c, x), IssueStep(x))
    ensures Fits(env, c, x, CutTables(env, c.db, steps, k))
  {
    IssueKeeps(env, c, x);
    IssueFollows(env, c, x);
    IssueEnds(env, c, x);
    DoneCutFits(env, c, c, x, IssueStep(x), IssueAction(env, c, x), steps, k);
  }

  lemma LoginCutFits(env: Env, c: Core, now: Time, x: Action, steps: Steps, k: nat)
    requires env.Lawful() && CoreSound(env, c) && x.Login? && k <= |steps|
    requires steps == CheckedSteps(env, Limited(c, now), x.authorityAt, x.a, x.w, LoginAction(env, c, now, x), LoginStep(x))
    ensures Fits(env, c, x, CutTables(env, c.db, steps, k))
  {
    LoginKeeps(env, c, now, x);
    LoginFollows(env, c, now, x);
    LoginEnds(env, c, now, x);
    var limited, done := Limited(c, now), LoginAction(env, c, now, x);
    LimitedSound(env, c, limited);
    DoneCutFits(env, c, limited, x, LoginStep(x), done, steps, k);
  }

  lemma RefreshCutFits(env: Env, c: Core, x: Action, steps: Steps, k: nat)
    requires env.Lawful() && CoreSound(env, c) && x.Refresh? && k <= |steps|
    requires steps == CheckedSteps(env, c, x.authorityAt, x.a, x.w, RefreshAction(env, c, x), RotateStep(x))
    ensures Fits(env, c, x, CutTables(env, c.db, steps, k))
  {
    RefreshKeeps(env, c, x);
    RefreshFollows(env, c, x);
    RefreshEnds(env, c, x);
    DoneCutFits(env, c, c, x, RotateStep(x), RefreshAction(env, c, x), steps, k);
  }

  /** Any other action carries out one operation at most, so it is cut before it or not at all. */
  lemma OneStepCut(env: Env, before: Cr.Tables, after: Cr.Tables, steps: Steps, k: nat)
    requires k <= |steps| <= 1 && Tables(env.store, before, steps) == after
    ensures CutTables(env, before, steps, k) == if k == 0 then before else after
  {
    CutAtEnds(env, before, steps);
  }

  lemma AtMostOneStep(env: Env, c: Core, now: Time, x: Action)
    requires !x.Poll? && !x.Issue? && !x.Login? && !x.Refresh?
    ensures |OnSteps(env, c, now, x)| <= 1
  {
  }

  /** Wherever a crash cuts an action, the tables on disk fit the settings: the account is the one they
      name, the evidence is its own, and whatever was lost was lost to a block that advanced. */
  lemma ActCutFits(env: Env, c: Core, now: Time, x: Action, k: nat)
    requires env.Lawful() && CoreSound(env, c) && k <= |ActSteps(env, c, now, x)|
    ensures Fits(env, c, x, CutTables(env, c.db, ActSteps(env, c, now, x), k))
  {
    var q := Pruned(c, now);
    PrunedKeeps(env, c, now);
    var steps := ActSteps(env, c, now, x);
    if !c.settings.enabled {
      CutAtEnds(env, c.db, []);
      SoundFits(env, c);
      SelfFollows(env, c.db, SeenBy(x), ExcuseOf(env, x));
    } else if x.Poll? {
      PollCutFits(env, q, now, x, k);
    } else if x.Issue? {
      IssueCutFits(env, q, x, steps, k);
    } else if x.Login? {
      LoginCutFits(env, q, now, x, steps, k);
    } else if x.Refresh? {
      RefreshCutFits(env, q, x, steps, k);
    } else {
      ActKeeps(env, c, now, x);
      ActFollows(env, c, now, x);
      ActTables(env, c, now, x);
      AtMostOneStep(env, q, now, x);
      OneStepCut(env, c.db, Act(env, c, now, x).core.db, steps, k);
      SoundFits(env, c);
      SoundFits(env, Act(env, c, now, x).core);
      SelfFollows(env, c.db, SeenBy(x), ExcuseOf(env, x));
    }
  }
}
