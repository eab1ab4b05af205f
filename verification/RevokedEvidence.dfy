/** Exactly when an action other than a poll takes evidence away. */
module RevokedEvidence {
  import opened Ordered
  import opened Outcomes
  import opened Account
  import opened AccountRuns
  import opened AccountEvidence
  import opened ActionSteps
  import opened Crashes
  import Chain
  import RateLimit
  import Cr = Credentials
  import Runs = CredentialRuns

  /** The check is due, has the account's own evidence, gets an answer that denies it, and can write. */
  predicate CheckRevokes(env: Env, c: Core, now: Time, a: Await<Chain.Answers>, w: Writes) {
    && c.settings.enabled && !Cached(c, now) && OwnEvidence(env, c).Ok? && env.identity(c.settings).Some?
    && a.Answered? && w.invalidate
    && var e := OwnEvidence(env, c).value;
       var r := Chain.Recheck(a.value, env.parseProof(env.identity(c.settings).value, e.proof), e.identity, now);
       r.Err? && Chain.Revokes(r.error)
  }

  lemma RevokingLoses(env: Env, c: Core, now: Time, a: Await<Chain.Answers>, w: Writes)
    requires Held(env, c.db).Some? && CheckRevokes(env, c, now, a, w)
    ensures var d := Authority(env, c, now, a, w);
            d.result.Err? && d.core.db.evidence.None?
  {
  }

  lemma OtherwiseKept(env: Env, c: Core, now: Time, a: Await<Chain.Answers>, w: Writes)
    requires env.Lawful() && CoreSound(env, c) && Held(env, c.db).Some? && !CheckRevokes(env, c, now, a, w)
    ensures Held(env, Authority(env, c, now, a, w).core.db).Some?
  {
    if OwnEvidence(env, c).Ok? {
      var e := OwnEvidence(env, c).value;
      assert forall v :: env.read(env.show(e.(identity := v))) == Some(e.(identity := v));
    }
  }

  lemma CheckEvidence(env: Env, c: Core, now: Time, a: Await<Chain.Answers>, w: Writes)
    requires env.Lawful() && CoreSound(env, c) && Held(env, c.db).Some?
    ensures var d := Authority(env, c, now, a, w);
            && (Held(env, d.core.db).None? <==> CheckRevokes(env, c, now, a, w))
            && (CheckRevokes(env, c, now, a, w) ==> d.result.Err? && d.core.db != c.db)
  {
    if CheckRevokes(env, c, now, a, w) {
      RevokingLoses(env, c, now, a, w);
    } else {
      OtherwiseKept(env, c, now, a, w);
    }
  }

  /** The action gets as far as the check of the authority. */
  predicate ReachesCheck(env: Env, c: Core, now: Time, x: Action) {
    if x.Issue? then Granted(env, c, x.grant, x.grantAt)
    else if x.Passwords? then Granted(env, c, x.grant, x.grantAt)
    else if x.Login? then
      RateLimit.Allowed(c.passwordTimes, now, 60, 20) && Cr.ProvenPassword(env.store, c.db, x.identifier, x.secret).Ok?
    else if x.Session? then Cr.Bearer(env.store, c.db, x.access, Cr.Access, x.readAt, x.rowAt).Ok?
    else x.Refresh? && Cr.Bearer(env.store, c.db, x.refresh, Cr.Kind.Refresh, x.readAt, x.readAt).Ok?
  }

  /** The action reaches its check and the check revokes. */
  predicate Revokes(env: Env, c: Core, now: Time, x: Action) {
    ReachesCheck(env, Pruned(c, now), now, x) && CheckRevokes(env, Pruned(c, now), x.authorityAt, x.a, x.w)
  }

  /** Operations on passwords and sessions leave evidence alone, at whatever point they are cut. */
  lemma CheckedCutEvidence(env: Env, c: Core, now: Time, a: Await<Chain.Answers>, w: Writes, done: Did<()>, step: Runs.Step, k: nat)
    requires env.Lawful() && CoreSound(env, c) && Held(env, c.db).Some? && (step.Issue? || step.Login? || step.Rotate?)
    requires var checked := Authority(env, c, now, a, w).core.db;
             var o := Runs.TableStep(env.store, checked, step);
             if done.result.Ok? then done.core.db == o.db else done.core.db == c.db || done.core.db == checked
    requires done.result.Ok? ==> Authority(env, c, now, a, w).result.Ok?
    requires k <= |CheckedSteps(env, c, now, a, w, done, step)|
    ensures Held(env, CutTables(env, c.db, CheckedSteps(env, c, now, a, w, done, step), k)).None?
       <==> k >= 1 && done.core.db != c.db && CheckRevokes(env, c, now, a, w)
  {
    var steps := CheckedSteps(env, c, now, a, w, done, step);
    CheckEvidence(env, c, now, a, w);
    CheckedCut(env, c, now, a, w, done, step, k);
    CheckedTables(env, c, now, a, w, done, step);
    CutAtEnds(env, c.db, steps);
    TableStepLeaves(env.store, Authority(env, c, now, a, w).core.db, step);
    AtMostOneCheckStep(env, c, now, a, w);
  }

  lemma AtMostOneCheckStep(env: Env, c: Core, now: Time, a: Await<Chain.Answers>, w: Writes)
    ensures |AuthoritySteps(env, c, now, a, w)| <= 1
  {
  }

  /** An action other than a poll takes held evidence away exactly when its authority check revokes it and
      the crash, if any, comes after that. */
  lemma OtherLosesExactly(env: Env, c: Core, now: Time, x: Action, k: nat)
    requires env.Lawful() && CoreSound(env, c) && !x.Poll? && Held(env, c.db).Some? && k <= |ActSteps(env, c, now, x)|
    ensures Held(env, CutTables(env, c.db, ActSteps(env, c, now, x), k)).None? <==> k >= 1 && Revokes(env, c, now, x)
  {
    var q := Pruned(c, now);
    PrunedKeeps(env, c, now);
    CutAtEnds(env, c.db, ActSteps(env, c, now, x));
    if c.settings.enabled {
      if x.Issue? {
        IssueLoses(env, q, now, x, k);
      } else if x.Login? {
        LoginLoses(env, q, now, x, k);
      } else if x.Refresh? {
        RefreshLoses(env, q, now, x, k);
      } else if x.Session? || x.Passwords? {
        ReadLoses(env, q, now, x, k);
      } else {
        LocalLoses(env, q, now, x, k);
      }
    }
  }

  lemma IssueLoses(env: Env, c: Core, now: Time, x: Action, k: nat)
    requires env.Lawful() && CoreSound(env, c) && x.Issue? && Held(env, c.db).Some? && k <= |OnSteps(env, c, now, x)|
    ensures Held(env, CutTables(env, c.db, OnSteps(env, c, now, x), k)).None?
       <==> k >= 1 && ReachesCheck(env, c, now, x) && CheckRevokes(env, c, x.authorityAt, x.a, x.w)
  {
    IssueEnds(env, c, x);
    CheckEvidence(env, c, x.authorityAt, x.a, x.w);
    CheckedCutEvidence(env, c, x.authorityAt, x.a, x.w, IssueAction(env, c, x), IssueStep(x), k);
  }

  lemma LoginLoses(env: Env, c: Core, now: Time, x: Action, k: nat)
    requires env.Lawful() && CoreSound(env, c) && x.Login? && Held(env, c.db).Some? && k <= |OnSteps(env, c, now, x)|
    ensures Held(env, CutTables(env, c.db, OnSteps(env, c, now, x), k)).None?
       <==> k >= 1 && ReachesCheck(env, c, now, x) && CheckRevokes(env, c, x.authorityAt, x.a, x.w)
  {
    LoginEnds(env, c, now, x);
    LimitedSound(env, c, Limited(c, now));
    CheckEvidence(env, Limited(c, now), x.authorityAt, x.a, x.w);
    CheckedCutEvidence(env, Limited(c, now), x.authorityAt, x.a, x.w, LoginAction(env, c, now, x), LoginStep(x), k);
  }

  lemma RefreshLoses(env: Env, c: Core, now: Time, x: Action, k: nat)
    requires env.Lawful() && CoreSound(env, c) && x.Refresh? && Held(env, c.db).Some? && k <= |OnSteps(env, c, now, x)|
    ensures Held(env, CutTables(env, c.db, OnSteps(env, c, now, x), k)).None?
       <==> k >= 1 && ReachesCheck(env, c, now, x) && CheckRevokes(env, c, x.authorityAt, x.a, x.w)
  {
    RefreshEnds(env, c, x);
    CheckEvidence(env, c, x.authorityAt, x.a, x.w);
    CheckedCutEvidence(env, c, x.authorityAt, x.a, x.w, RefreshAction(env, c, x), RotateStep(x), k);
  }

  /** A check alone is cut before its one operation or after it. */
  lemma CheckLoses(env: Env, c: Core, now: Time, a: Await<Chain.Answers>, w: Writes, k: nat)
    requires env.Lawful() && CoreSound(env, c) && Held(env, c.db).Some? && k <= |AuthoritySteps(env, c, now, a, w)|
    ensures Held(env, CutTables(env, c.db, AuthoritySteps(env, c, now, a, w), k)).None? <==> k >= 1 && CheckRevokes(env, c, now, a, w)
  {
    CheckEvidence(env, c, now, a, w);
    AtMostOneCheckStep(env, c, now, a, w);
    AuthorityTables(env, c, now, a, w);
    CutAtEnds(env, c.db, AuthoritySteps(env, c, now, a, w));
  }

  lemma ReadSteps(env: Env, c: Core, now: Time, x: Action)
    requires x.Session? || x.Passwords?
    ensures OnSteps(env, c, now, x)
         == if ReachesCheck(env, c, now, x) then AuthoritySteps(env, c, x.authorityAt, x.a, x.w) else []
  {
  }

  lemma ReadLoses(env: Env, c: Core, now: Time, x: Action, k: nat)
    requires env.Lawful() && CoreSound(env, c) && (x.Session? || x.Passwords?) && Held(env, c.db).Some? && k <= |OnSteps(env, c, now, x)|
    ensures Held(env, CutTables(env, c.db, OnSteps(env, c, now, x), k)).None?
       <==> k >= 1 && ReachesCheck(env, c, now, x) && CheckRevokes(env, c, x.authorityAt, x.a, x.w)
  {
    ReadSteps(env, c, now, x);
    CutAtEnds(env, c.db, OnSteps(env, c, now, x));
    if ReachesCheck(env, c, now, x) {
      CheckLoses(env, c, x.authorityAt, x.a, x.w, k);
    }
  }

  lemma LocalLoses(env: Env, c: Core, now: Time, x: Action, k: nat)
    requires env.Lawful() && (x.Start? || x.Revoke? || x.Logout? || x.Describe? || x.DidDocument?)
    requires Held(env, c.db).Some? && k <= |OnSteps(env, c, now, x)|
    ensures Held(env, CutTables(env, c.db, OnSteps(env, c, now, x), k)).Some?
  {
    CutAtEnds(env, c.db, OnSteps(env, c, now, x));
    if x.Revoke? {
      RevokeTables(env, c, now, x);
      RevokeDoes(env, c, x);
      TableStepLeaves(env.store, c.db, Runs.Revoke(x.name));
    } else if x.Logout? {
      LogoutTables(env, c, now, x);
      LogoutDoes(env, c, x);
      TableStepLeaves(env.store, c.db, Runs.Logout(x.refresh, x.logoutAt));
    }
  }
}
