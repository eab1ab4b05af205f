/** Exactly when the poll of a login stores evidence, takes evidence away, or leaves it. */
module LoginEvidence {
  import opened Ordered
  import opened Outcomes
  import opened Account
  import opened AccountRuns
  import opened AccountEvidence
  import opened ActionSteps
  import opened Crashes
  import Chain
  import Cr = Credentials
  import Runs = CredentialRuns

  function VerifyBy(env: Env, c: Core, id: Bytes, proof: Chain.Proof, now: Time, x: Action): Did<Reply>
    requires x.Poll? && id in c.pending && env.identity(c.settings).Some?
  {
    PollVerify(env, c, id, proof, now, x.verifyAt, x.a, x.expiryAt, x.bindAt, x.checkedAt, x.w, x.key, x.accountToken)
  }

  /** The login checks out, in time, for the FID that the settings allow. */
  predicate ChecksOut(env: Env, c: Core, id: Bytes, proof: Chain.Proof, x: Action)
    requires x.Poll? && id in c.pending && env.identity(c.settings).Some?
  {
    var check := LoginCheck(env, env.identity(c.settings).value, proof, c.pending[id].challenge, x.verifyAt, x.a);
    check.Ok? && c.settings.allowedFid == Some(check.value.fid) && x.expiryAt < c.pending[id].challenge.expiresAt
  }

  function CheckedBy(env: Env, c: Core, id: Bytes, proof: Chain.Proof, x: Action): Chain.Verified
    requires x.Poll? && id in c.pending && env.identity(c.settings).Some? && ChecksOut(env, c, id, proof, x)
  {
    LoginCheck(env, env.identity(c.settings).value, proof, c.pending[id].challenge, x.verifyAt, x.a).value
  }

  predicate Differs(env: Env, c: Core, v: Chain.Verified) {
    c.db.account.Some? && c.db.account.value.account.authority != env.FingerprintOf(v)
  }

  /** The login checks out and is not behind evidence that is held. */
  predicate GoesAhead(env: Env, c: Core, id: Bytes, proof: Chain.Proof, x: Action)
    requires x.Poll? && id in c.pending && env.identity(c.settings).Some?
  {
    ChecksOut(env, c, id, proof, x)
    && (Held(env, c.db).Some? ==> !BehindEvidence(Held(env, c.db).value, CheckedBy(env, c, id, proof, x)))
  }

  /** Its authority is another one, and the old one's credentials and evidence are taken away. */
  predicate Supersedes(env: Env, c: Core, id: Bytes, proof: Chain.Proof, x: Action)
    requires x.Poll? && id in c.pending && env.identity(c.settings).Some?
  {
    GoesAhead(env, c, id, proof, x) && Differs(env, c, CheckedBy(env, c, id, proof, x)) && x.w.invalidate
  }

  /** Both writes are made, of an authority and a document that the store accepts. A first binding also
      takes the settings' identity, a FID within range, and a key. */
  predicate Storable(env: Env, c: Core, proof: Chain.Proof, v: Chain.Verified, x: Action)
    requires x.Poll? && env.identity(c.settings).Some?
  {
    && x.w.bind && x.w.evidence
    && Cr.ValidAuthority(env.FingerprintOf(v)) && 0 < |env.show(Evidence(v, proof))| <= Cr.MAX_EVIDENCE
    && (c.db.account.None? ==>
          var identity := env.identity(c.settings).value;
          && env.store.validate(identity) && 0 < v.fid <= Cr.I64_MAX && env.store.validScalar(x.key)
          && env.store.emptyRoot(identity.did, env.store.revision(x.bindAt), x.key).Some?)
  }

  /** The login's evidence gets stored. */
  predicate Stores(env: Env, c: Core, id: Bytes, proof: Chain.Proof, x: Action)
    requires x.Poll? && id in c.pending && env.identity(c.settings).Some?
  {
    && GoesAhead(env, c, id, proof, x)
    && (Differs(env, c, CheckedBy(env, c, id, proof, x)) ==> x.w.invalidate)
    && Storable(env, c, proof, CheckedBy(env, c, id, proof, x), x)
  }

  lemma BindsWhen(env: Env, c: Core, v: Chain.Verified, proof: Chain.Proof, x: Action)
    requires CoreSound(env, c) && x.Poll? && env.identity(c.settings).Some? && c.settings.allowedFid == Some(v.fid)
    requires !Differs(env, c, v) || Cr.EnabledAccount(c.db).Err?
    ensures var bound := Cr.BindVerified(env.store, c.db, v.fid, env.FingerprintOf(v), env.identity(c.settings).value, x.bindAt, x.key);
            && bound.db.evidence == c.db.evidence
            && (bound.result.Ok? ==> Cr.EnabledAccount(bound.db).Ok?)
            && (bound.result.Ok? && x.w.bind && x.w.evidence && 0 < |env.show(Evidence(v, proof))| <= Cr.MAX_EVIDENCE
                <==> Storable(env, c, proof, v, x))
  {
  }

  lemma AdmitEvidence(env: Env, c: Core, id: Bytes, proof: Chain.Proof, v: Chain.Verified, now: Time, x: Action)
    requires env.Lawful() && CoreSound(env, c) && x.Poll? && id in c.pending && env.identity(c.settings).Some?
    requires c.settings.allowedFid == Some(v.fid) && (!Differs(env, c, v) || Cr.EnabledAccount(c.db).Err?)
    ensures var d := Admit(env, c, id, proof, v, env.identity(c.settings).value, now, x.bindAt, x.checkedAt, x.w, x.key, x.accountToken);
            && (d.result.Ok? <==> Storable(env, c, proof, v, x))
            && (if d.result.Ok? then Held(env, d.core.db) == Some(v) else d.core.db.evidence == c.db.evidence)
  {
    BindsWhen(env, c, v, proof, x);
    assert env.read(env.show(Evidence(v, proof))) == Some(Evidence(v, proof));
  }

  lemma SupersedeEvidence(env: Env, c: Core, v: Chain.Verified, proof: Chain.Proof, x: Action)
    requires CoreSound(env, c) && x.Poll? && env.identity(c.settings).Some?
    ensures var d := Supersede(c, env.FingerprintOf(v), x.w);
            && (d.result.Ok? <==> (Differs(env, c, v) ==> x.w.invalidate))
            && d.core.db.evidence == (if Differs(env, c, v) && x.w.invalidate then None else c.db.evidence)
            && (d.result.Ok? ==> (!Differs(env, d.core, v) || Cr.EnabledAccount(d.core.db).Err?))
            && (Storable(env, d.core, proof, v, x) <==> Storable(env, c, proof, v, x))
  {
  }

  /** From a sound core, a poll with a proof ends in one of three ways, each for its own causes: it stores
      its evidence, it takes held evidence away and leaves none, or it leaves the evidence alone. */
  lemma PollEvidence(env: Env, c: Core, id: Bytes, proof: Chain.Proof, now: Time, x: Action)
    requires env.Lawful() && CoreSound(env, c) && x.Poll? && id in c.pending && env.identity(c.settings).Some?
    ensures var d := VerifyBy(env, c, id, proof, now, x);
            && (d.result.Ok? <==> Stores(env, c, id, proof, x))
            && (d.result.Ok? ==> Held(env, d.core.db) == Some(CheckedBy(env, c, id, proof, x)))
            && (Held(env, c.db).Some? && Held(env, d.core.db).None?
                <==> Held(env, c.db).Some? && Supersedes(env, c, id, proof, x) && !Stores(env, c, id, proof, x))
            && (!Stores(env, c, id, proof, x) && !Supersedes(env, c, id, proof, x) ==> d.core.db.evidence == c.db.evidence)
  {
    if GoesAhead(env, c, id, proof, x) {
      var v := CheckedBy(env, c, id, proof, x);
      var cleared := Supersede(c, env.FingerprintOf(v), x.w);
      SupersedeEvidence(env, c, v, proof, x);
      SupersedeKeeps(env, c, env.FingerprintOf(v), x.w);
      if cleared.result.Ok? {
        AdmitEvidence(env, cleared.core, id, proof, v, now, x);
      }
    }
  }

  // ----- cut by a crash -----

  /** What a crash after `k` store operations leaves of the evidence. */
  lemma VerifyCutEvidence(env: Env, c: Core, id: Bytes, proof: Chain.Proof, now: Time, x: Action, k: nat)
    requires env.Lawful() && CoreSound(env, c) && x.Poll? && id in c.pending && env.identity(c.settings).Some?
    requires k <= |VerifySteps(env, c, id, proof, now, x)|
    ensures var steps := VerifySteps(env, c, id, proof, now, x);
            var cut := CutTables(env, c.db, steps, k);
            var stored := Stores(env, c, id, proof, x) && k == |steps|;
            && (stored ==> Held(env, cut) == Some(CheckedBy(env, c, id, proof, x)))
            && (Held(env, c.db).None? ==> (Held(env, cut).Some? <==> stored))
            && (Held(env, c.db).Some? ==> (Held(env, cut).None? <==> Supersedes(env, c, id, proof, x) && k >= 1 && !stored))
  {
    var steps := VerifySteps(env, c, id, proof, now, x);
    PollEvidence(env, c, id, proof, now, x);
    VerifyTables(env, c, id, proof, now, x);
    CutAtEnds(env, c.db, steps);
    if 0 < k < |steps| {
      InnerCutEvidence(env, c, id, proof, now, x, k);
    }
  }

  lemma InnerCutEvidence(env: Env, c: Core, id: Bytes, proof: Chain.Proof, now: Time, x: Action, k: nat)
    requires CoreSound(env, c) && x.Poll? && id in c.pending && env.identity(c.settings).Some?
    requires 0 < k < |VerifySteps(env, c, id, proof, now, x)|
    ensures CutTables(env, c.db, VerifySteps(env, c, id, proof, now, x), k).evidence
         == if Supersedes(env, c, id, proof, x) then None else c.db.evidence
  {
    InnerCut(env, c, id, proof, now, x, k);
    VerifyDoes(env, c, id, proof, now, x.verifyAt, x.a, x.expiryAt, x.bindAt, x.checkedAt, x.w, x.key, x.accountToken);
    var identity := env.identity(c.settings).value;
    var v := LoginCheck(env, identity, proof, c.pending[id].challenge, x.verifyAt, x.a).value;
    SupersedeEvidence(env, c, v, proof, x);
    BindStep(env, Supersede(c, env.FingerprintOf(v), x.w).core.db, v, identity, x.bindAt, x.key);
  }

  // ----- the same for whole actions -----

  /** The poll has a proof at hand, its own or the relay's. */
  predicate Reaches(env: Env, c: Core, now: Time, x: Action) {
    c.settings.enabled && x.Poll? && PollRelay(env, Pruned(c, now), x.pollId, x.token, now, x.status).stage.Proceed?
  }

  function ProofOf(env: Env, c: Core, now: Time, x: Action): Chain.Proof
    requires Reaches(env, c, now, x)
  {
    PollRelay(env, Pruned(c, now), x.pollId, x.token, now, x.status).stage.proof
  }

  predicate StoresBy(env: Env, c: Core, now: Time, x: Action) {
    Reaches(env, c, now, x) && Stores(env, Pruned(c, now), x.pollId, ProofOf(env, c, now, x), x)
  }

  predicate SupersedesBy(env: Env, c: Core, now: Time, x: Action) {
    Reaches(env, c, now, x) && Supersedes(env, Pruned(c, now), x.pollId, ProofOf(env, c, now, x), x)
  }

  /** What the login's check found. */
  function LoginOf(env: Env, c: Core, now: Time, x: Action): Chain.Verified
    requires StoresBy(env, c, now, x)
  {
    CheckedBy(env, Pruned(c, now), x.pollId, ProofOf(env, c, now, x), x)
  }

  /** The relay's part of a poll changes nothing that the login's check depends on. */
  lemma SameLogin(env: Env, c: Core, d: Core, id: Bytes, proof: Chain.Proof, x: Action)
    requires x.Poll? && id in c.pending && id in d.pending && env.identity(c.settings).Some?
    requires d.settings == c.settings && d.db == c.db && d.pending[id].challenge == c.pending[id].challenge
    ensures ChecksOut(env, d, id, proof, x) <==> ChecksOut(env, c, id, proof, x)
    ensures ChecksOut(env, c, id, proof, x) ==> CheckedBy(env, d, id, proof, x) == CheckedBy(env, c, id, proof, x)
    ensures Stores(env, d, id, proof, x) <==> Stores(env, c, id, proof, x)
    ensures Supersedes(env, d, id, proof, x) <==> Supersedes(env, c, id, proof, x)
  {
  }

  lemma PollCutEvidence(env: Env, c: Core, now: Time, x: Action, k: nat)
    requires env.Lawful() && CoreSound(env, c) && c.settings.enabled && x.Poll? && k <= |ActSteps(env, c, now, x)|
    ensures CutEvidence(env, c, now, x, k)
  {
    var q := Pruned(c, now);
    var s := PollRelay(env, q, x.pollId, x.token, now, x.status);
    PrunedKeeps(env, c, now);
    RelayKeeps(env, q, x.pollId, x.token, now, x.status);
    if s.stage.Proceed? {
      RelayChallenge(env, q, x.pollId, x.token, now, x.status);
      SameLogin(env, q, s.core, x.pollId, s.stage.proof, x);
      VerifyCutEvidence(env, s.core, x.pollId, s.stage.proof, now, x, k);
    } else {
      CutAtEnds(env, c.db, []);
    }
  }

  lemma RelayChallenge(env: Env, c: Core, id: Bytes, token: Bytes, now: Time, relay: Await<Result<ChannelStatus, Chain.AuthError>>)
    requires PollRelay(env, c, id, token, now, relay).stage.Proceed?
    ensures var d := PollRelay(env, c, id, token, now, relay).core;
            id in c.pending && id in d.pending && d.pending[id].challenge == c.pending[id].challenge
  {
  }

  /** What a crash after `k` store operations of an action leaves of the evidence. */
  ghost predicate CutEvidence(env: Env, c: Core, now: Time, x: Action, k: nat)
    requires k <= |ActSteps(env, c, now, x)|
  {
    var cut := CutTables(env, c.db, ActSteps(env, c, now, x), k);
    var stored := StoresBy(env, c, now, x) && k == |ActSteps(env, c, now, x)|;
    && (stored ==> Held(env, cut) == Some(LoginOf(env, c, now, x)))
    && (Held(env, c.db).None? ==> (Held(env, cut).Some? <==> stored))
    && (x.Poll? && Held(env, c.db).Some? ==> (Held(env, cut).None? <==> SupersedesBy(env, c, now, x) && k >= 1 && !stored))
  }

  predicate Records(steps: Steps) {
    exists i :: 0 <= i < |steps| && steps[i].Record?
  }

  /** Only recording makes evidence. */
  lemma {:induction false} NoneRecorded(env: Cr.Env, db: Cr.Tables, steps: Steps)
    requires db.evidence.None? && !Records(steps)
    ensures Tables(env, db, steps).evidence.None?
    decreases |steps|
  {
    if steps != [] {
      assert !steps[0].Record?;
      assert !Records(steps[1..]) by {
        assert forall i :: 0 <= i < |steps[1..]| ==> steps[1..][i] == steps[i + 1];
      }
      StepMakesNone(env, db, steps[0]);
      NoneRecorded(env, Runs.TableStep(env, db, steps[0]).db, steps[1..]);
    }
  }

  lemma StepMakesNone(env: Cr.Env, db: Cr.Tables, step: Runs.Step)
    requires db.evidence.None? && !step.Record?
    ensures Runs.TableStep(env, db, step).db.evidence.None?
  {
  }

  /** Without evidence an authority check does nothing to the store. */
  lemma CheckWithoutEvidence(env: Env, c: Core, now: Time, a: Await<Chain.Answers>, w: Writes)
    requires CoreSound(env, c) && c.db.evidence.None?
    ensures AuthoritySteps(env, c, now, a, w) == []
  {
    AuthorityDoes(env, c, now, a, w);
  }

  lemma OtherCutEvidence(env: Env, c: Core, now: Time, x: Action, k: nat)
    requires CoreSound(env, c) && !x.Poll? && k <= |ActSteps(env, c, now, x)|
    ensures CutEvidence(env, c, now, x, k)
  {
    var steps := ActSteps(env, c, now, x);
    if Held(env, c.db).None? {
      assert c.db.evidence.None?;
      OtherRecordsNothing(env, c, now, x);
      assert !Records(steps[..k]);
      NoneRecorded(env.store, c.db, steps[..k]);
    }
  }

  lemma OtherRecordsNothing(env: Env, c: Core, now: Time, x: Action)
    requires CoreSound(env, c) && !x.Poll? && c.db.evidence.None?
    ensures !Records(ActSteps(env, c, now, x))
  {
    var q := Pruned(c, now);
    PrunedKeeps(env, c, now);
    if x.Login? {
      LimitedSound(env, q, Limited(q, now));
      CheckWithoutEvidence(env, Limited(q, now), x.authorityAt, x.a, x.w);
    } else if x.Issue? || x.Passwords? || x.Session? || x.Refresh? {
      CheckWithoutEvidence(env, q, x.authorityAt, x.a, x.w);
    }
  }

  lemma ActCutEvidence(env: Env, c: Core, now: Time, x: Action, k: nat)
    requires env.Lawful() && CoreSound(env, c) && k <= |ActSteps(env, c, now, x)|
    ensures CutEvidence(env, c, now, x, k)
  {
    if !x.Poll? {
      OtherCutEvidence(env, c, now, x, k);
    } else if c.settings.enabled {
      PollCutEvidence(env, c, now, x, k);
    } else {
      CutAtEnds(env, c.db, []);
    }
  }
}
